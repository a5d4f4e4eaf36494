/** When every step gets at most one task.  The engine finds the task of a step by the step's name: an
    empty name is never found, and steps of one name that become ready together are not told apart.
    For which specs that shows, over all runs, is settled here and in `StepPairs`. */
module StepNames {
  import opened Store
  import opened Graphs
  import opened Dag
  import opened Workflows
  import opened WorkflowRuns
  import opened WorkflowRounds
  import opened StepRounds

  // ---- counting tasks and steps by name ----

  function TaskCount(tasks: seq<StepTask>, n: string): nat {
    if tasks == [] then 0
    else TaskCount(tasks[..|tasks| - 1], n) + (if tasks[|tasks| - 1].step == n then 1 else 0)
  }

  function StepCount(steps: seq<StepSpec>, n: string): nat {
    if steps == [] then 0
    else StepCount(steps[..|steps| - 1], n) + (if steps[|steps| - 1].name == n then 1 else 0)
  }

  lemma {:induction false} CountStarted(tasks: seq<StepTask>, n: string)
    ensures Started(tasks, n) <==> TaskCount(tasks, n) > 0
    ensures DistinctSteps(tasks) ==> TaskCount(tasks, n) <= 1
  {
    if tasks != [] {
      CountStarted(tasks[..|tasks| - 1], n);
      StartedLast(tasks, n);
      if DistinctSteps(tasks) && tasks[|tasks| - 1].step == n {
        assert !Started(tasks[..|tasks| - 1], n);
      }
    }
  }

  lemma {:induction false} CountLaunched(tasks: seq<StepTask>, xs: seq<StepSpec>, n: string)
    ensures TaskCount(tasks + NewTasks(xs), n) == TaskCount(tasks, n) + StepCount(xs, n)
  {
    if xs == [] {
      assert tasks + NewTasks(xs) == tasks;
    } else {
      var last := |xs| - 1;
      CountLaunched(tasks, xs[..last], n);
      assert (tasks + NewTasks(xs))[..|tasks| + last] == tasks + NewTasks(xs[..last]);
    }
  }

  lemma {:induction false} CountFinished(tasks: seq<StepTask>, chosen: set<string>, n: string)
    ensures TaskCount(Finish(tasks, chosen), n) == TaskCount(tasks, n)
  {
    if tasks != [] {
      var last := |tasks| - 1;
      CountFinished(tasks[..last], chosen, n);
      assert Finish(tasks, chosen)[..last] == Finish(tasks[..last], chosen);
    }
  }

  lemma {:induction false} CountNamed(steps: seq<StepSpec>, n: string)
    ensures StepCount(steps, n) > 0 <==> exists i :: 0 <= i < |steps| && steps[i].name == n
  {
    if steps != [] {
      var last := |steps| - 1;
      CountNamed(steps[..last], n);
      assert forall i :: 0 <= i < last ==> steps[..last][i] == steps[i];
    }
  }

  lemma {:induction false} CountTwice(steps: seq<StepSpec>, i: nat, j: nat)
    requires i < j < |steps| && steps[i].name == steps[j].name
    ensures StepCount(steps, steps[i].name) >= 2
  {
    var last := |steps| - 1;
    if j < last {
      assert steps[..last][i] == steps[i] && steps[..last][j] == steps[j];
      CountTwice(steps[..last], i, j);
    } else {
      assert steps[..last][i].name == steps[i].name;
      CountNamed(steps[..last], steps[i].name);
    }
  }

  lemma LastReady(steps: seq<StepSpec>, completed: set<string>, n: string)
    requires steps != []
    ensures var last := |steps| - 1;
      StepCount(ReadySteps(steps, completed), n) == StepCount(ReadySteps(steps[..last], completed), n) +
        (if IsReady(steps[last], completed) && steps[last].name == n then 1 else 0)
  {
    var last := |steps| - 1;
    var before := ReadySteps(steps[..last], completed);
    if IsReady(steps[last], completed) {
      assert (before + [steps[last]])[..|before|] == before;
    } else {
      assert before + [] == before;
    }
  }

  lemma {:induction false} OneReady(steps: seq<StepSpec>, completed: set<string>, i: nat)
    requires i < |steps| && IsReady(steps[i], completed)
    ensures StepCount(ReadySteps(steps, completed), steps[i].name) >= 1
  {
    var last := |steps| - 1;
    LastReady(steps, completed, steps[i].name);
    if i < last {
      assert steps[..last][i] == steps[i];
      OneReady(steps[..last], completed, i);
    }
  }

  lemma {:induction false} TwoReady(steps: seq<StepSpec>, completed: set<string>, i: nat, j: nat)
    requires i < j < |steps| && steps[i].name == steps[j].name
    requires IsReady(steps[i], completed) && IsReady(steps[j], completed)
    ensures StepCount(ReadySteps(steps, completed), steps[i].name) >= 2
  {
    var last := |steps| - 1;
    LastReady(steps, completed, steps[i].name);
    assert steps[..last][i] == steps[i];
    if j < last {
      assert steps[..last][j] == steps[j];
      TwoReady(steps[..last], completed, i, j);
    } else {
      OneReady(steps[..last], completed, i);
    }
  }

  lemma {:induction false} CountToLaunch(ready: seq<StepSpec>, states: map<string, TaskState>, n: string)
    requires n !in states
    ensures StepCount(ToLaunch(ready, states), n) == StepCount(ready, n)
  {
    if ready != [] {
      var last := |ready| - 1;
      CountToLaunch(ready[..last], states, n);
      var before := ToLaunch(ready[..last], states);
      if ready[last].name in states {
        assert before + [] == before;
      } else {
        assert (before + [ready[last]])[..|before|] == before;
      }
    }
  }

  // ---- a step without a name ----

  ghost predicate Leads(es: seq<Edge>, n: string, m: string) {
    exists p :: Path(es, p) && p[0] == n && p[|p| - 1] == m
  }

  lemma LeadsBack(es: seq<Edge>, d: string, n: string, m: string)
    requires (d, n) in es && Leads(es, n, m)
    ensures Leads(es, d, m)
    ensures d == m ==> OnCycle(es, m)
  {
    var p :| Path(es, p) && p[0] == n && p[|p| - 1] == m;
    var q := [d] + p;
    assert forall i :: 0 <= i < |p| ==> q[i + 1] == p[i];
    assert Path(es, q) && q[0] == d && q[|q| - 1] == m;
  }

  /** The step named "" and everything it waits for, directly or not. */
  ghost function AboveEmpty(spec: seq<StepSpec>): set<string> {
    set n | n in Names(spec) && Leads(Edges(spec), n, "")
  }

  lemma AboveEmptyIsGrounded(spec: seq<StepSpec>)
    requires Acyclic(Edges(spec)) && Closed(spec)
    ensures Grounded(spec, AboveEmpty(spec), Names(spec))
  {
    forall e | e in Edges(spec) && e.1 in AboveEmpty(spec)
      ensures e.0 in Names(spec) && e.0 in AboveEmpty(spec) && e.0 != ""
    {
      assert e == (e.0, e.1);
      LeadsBack(Edges(spec), e.0, e.1, "");
    }
  }

  lemma EmptyLeadsToItself(spec: seq<StepSpec>)
    requires "" in Names(spec)
    ensures "" in AboveEmpty(spec)
  {
    assert Path(Edges(spec), [""]) && [""][0] == "";
  }

  /** From some round on all the step named "" waits for is done. */
  lemma EmptyIsReady(spec: seq<StepSpec>, k: nat, x: StepSpec)
    requires Closed(spec) && Acyclic(Edges(spec)) && k >= |Names(spec)| && x in spec && x.name == ""
    ensures forall d :: d in x.dependsOn ==> d in Done(Rounds(spec, k, Names(spec)))
  {
    RoundsGo(spec, k, Names(spec));
    SetsWhenTold(Rounds(spec, k, Names(spec)), Names(spec));
    AboveEmptyIsGrounded(spec);
    var i :| 0 <= i < |spec| && spec[i] == x;
    assert spec[i].name in Names(spec);
    EmptyLeadsToItself(spec);
    forall d | d in x.dependsOn ensures d in Done(Rounds(spec, k, Names(spec))) {
      EdgesAreDependencies(spec, d, "");
      assert (d, "") in Edges(spec) && (d, "").1 in AboveEmpty(spec);
      AllStarted(spec, k, Names(spec), d, AboveEmpty(spec));
    }
  }

  lemma EmptyLaunched(w: Workflow, chosen: set<string>, x: StepSpec)
    requires Going(w, w.spec, chosen) && x in w.spec && x.name == "" && forall d :: d in x.dependsOn ==> d in Done(w)
    ensures TaskCount(Round(w, chosen).tasks, "") > TaskCount(w.tasks, "")
  {
    SetsWhenTold(w, chosen);
    var i :| 0 <= i < |w.spec| && w.spec[i] == x;
    assert w.spec[i].name in Names(w.spec);
    LaunchWhenTold(w, chosen, x);
    CountNamed(Launch(w), "");
    CountLaunched(w.tasks, Launch(w), "");
    CountFinished(Advance(w).tasks, chosen, "");
  }

  /** A workflow with such a step never completes, and from some round on launches the step again
      every time. */
  lemma LaunchesEmptyName(spec: seq<StepSpec>, k: nat)
    requires Closed(spec) && Acyclic(Edges(spec)) && "" in Names(spec) && k >= |Names(spec)|
    ensures TaskCount(Rounds(spec, k + 1, Names(spec)).tasks, "") > TaskCount(Rounds(spec, k, Names(spec)).tasks, "")
  {
    RoundsGo(spec, k, Names(spec));
    var i :| 0 <= i < |spec| && spec[i].name == "";
    EmptyIsReady(spec, k, spec[i]);
    EmptyLaunched(Rounds(spec, k, Names(spec)), Names(spec), spec[i]);
  }

  /** Over every run, no two tasks have the same step. */
  ghost predicate OneTaskPerStep(spec: seq<StepSpec>) {
    forall evs :: PossibleRun(Start(spec), evs) ==> DistinctSteps(After(Start(spec), evs).tasks)
  }

  lemma TwoTasks(spec: seq<StepSpec>, evs: seq<Event>, n: string)
    requires PossibleRun(Start(spec), evs) && TaskCount(After(Start(spec), evs).tasks, n) >= 2
    ensures !OneTaskPerStep(spec)
  {
    CountStarted(After(Start(spec), evs).tasks, n);
  }

  /** A validated spec with a step named "" launches that step twice in some run. */
  lemma EmptyNameLaunchesTwice(spec: seq<StepSpec>)
    requires Acyclic(Edges(spec)) && !exists i: nat, d :: UnknownDependency(spec, i, d)
    requires "" in Names(spec)
    ensures !OneTaskPerStep(spec)
  {
    KnownMeansClosed(spec);
    LaunchesEmptyName(spec, |Names(spec)|);
    LaunchesEmptyName(spec, |Names(spec)| + 1);
    var evs := RoundsAreRuns(spec, |Names(spec)| + 2, Names(spec));
    TwoTasks(spec, evs, "");
  }

  // ---- steps that share a name ----

  ghost predicate Above(es: seq<Edge>, d: string, u: string) {
    exists p :: Path(es, p) && |p| >= 2 && p[0] == d && p[|p| - 1] == u
  }

  lemma DirectlyAbove(es: seq<Edge>, d: string, u: string)
    requires (d, u) in es
    ensures Above(es, d, u)
  {
    assert Path(es, [d, u]) && [d, u][0] == d && [d, u][1] == u;
  }

  lemma AboveTransitive(es: seq<Edge>, d: string, v: string, u: string)
    requires Above(es, d, v) && Above(es, v, u)
    ensures Above(es, d, u)
  {
    var p :| Path(es, p) && |p| >= 2 && p[0] == d && p[|p| - 1] == v;
    var q :| Path(es, q) && |q| >= 2 && q[0] == v && q[|q| - 1] == u;
    var r := p + q[1..];
    forall i | 0 <= i < |r| - 1 ensures (r[i], r[i + 1]) in es {
      if i >= |p| - 1 {
        var k := i - (|p| - 1);
        assert r[i] == q[k] && r[i + 1] == q[k + 1];
      }
    }
    assert Path(es, r) && r[0] == d && r[|r| - 1] == u;
  }

  lemma NotAboveItself(es: seq<Edge>, d: string)
    requires Acyclic(es)
    ensures !Above(es, d, d)
  {
    assert !OnCycle(es, d);
  }

  /** What two steps wait for between them. */
  function Joint(spec: seq<StepSpec>, i: nat, j: nat): seq<string>
    requires i < |spec| && j < |spec|
  {
    spec[i].dependsOn + spec[j].dependsOn
  }

  /** A step that has to succeed before all of that can even start. */
  ghost predicate Early(spec: seq<StepSpec>, i: nat, j: nat, d: string)
    requires i < |spec| && j < |spec|
  {
    exists u :: u in Joint(spec, i, j) && Above(Edges(spec), d, u)
  }

  /** The two steps can get ready together, with no step of their name ready before: each step of the
      name waits for something that need not be done before everything the two wait for has started.
      Two steps that wait for nothing are ready together at once. */
  ghost predicate Together(spec: seq<StepSpec>, i: nat, j: nat)
    requires i < |spec| && j < |spec|
  {
    || Joint(spec, i, j) == []
    || forall k :: 0 <= k < |spec| && spec[k].name == spec[i].name ==> WaitsLate(spec, i, j, spec[k])
  }

  ghost predicate WaitsLate(spec: seq<StepSpec>, i: nat, j: nat, x: StepSpec)
    requires i < |spec| && j < |spec|
  {
    exists d :: d in x.dependsOn && !Early(spec, i, j, d)
  }

  ghost function EarlySteps(spec: seq<StepSpec>, i: nat, j: nat): set<string>
    requires i < |spec| && j < |spec|
  {
    set d | d in Names(spec) && Early(spec, i, j, d)
  }

  function JointSet(spec: seq<StepSpec>, i: nat, j: nat): set<string>
    requires i < |spec| && j < |spec|
  {
    set d | d in Joint(spec, i, j)
  }

  lemma EarlyIsGrounded(spec: seq<StepSpec>, i: nat, j: nat)
    requires i < |spec| && j < |spec| && Closed(spec) && "" !in Names(spec)
    ensures Grounded(spec, EarlySteps(spec, i, j) + JointSet(spec, i, j), EarlySteps(spec, i, j))
  {
    var within := EarlySteps(spec, i, j) + JointSet(spec, i, j);
    forall e | e in Edges(spec) && e.1 in within ensures e.0 in Names(spec) && e.0 in EarlySteps(spec, i, j) {
      assert e == (e.0, e.1);
      DirectlyAbove(Edges(spec), e.0, e.1);
      if e.1 !in JointSet(spec, i, j) {
        var u :| u in Joint(spec, i, j) && Above(Edges(spec), e.1, u);
        AboveTransitive(Edges(spec), e.0, e.1, u);
      }
    }
  }

  lemma JointIsAbove(spec: seq<StepSpec>, i: nat, j: nat, u: string)
    requires i < |spec| && j < |spec| && spec[i].name == spec[j].name && u in Joint(spec, i, j)
    ensures (u, spec[i].name) in Edges(spec)
  {
    EdgesAreDependencies(spec, u, spec[i].name);
  }

  /** The shared name itself is neither early nor waited for. */
  lemma NameIsOutside(spec: seq<StepSpec>, i: nat, j: nat)
    requires i < |spec| && j < |spec| && spec[i].name == spec[j].name && Acyclic(Edges(spec))
    ensures spec[i].name !in EarlySteps(spec, i, j) && spec[i].name !in JointSet(spec, i, j)
  {
    var n, es := spec[i].name, Edges(spec);
    NotAboveItself(es, n);
    forall u | u in Joint(spec, i, j) ensures u != n && !Above(es, n, u) {
      JointIsAbove(spec, i, j, u);
      DirectlyAbove(es, u, n);
      if Above(es, n, u) { AboveTransitive(es, n, u, n); }
    }
  }

  /** A name each of whose steps waits for something not chosen is never launched. */
  lemma {:induction false} NeverLaunched(spec: seq<StepSpec>, k: nat, chosen: set<string>, n: string)
    requires n != "" && forall x :: x in spec && x.name == n ==> exists d :: d in x.dependsOn && d !in chosen
    ensures !Started(Rounds(spec, k, chosen).tasks, n)
  {
    if k > 0 {
      var w := Rounds(spec, k - 1, chosen);
      NeverLaunched(spec, k - 1, chosen, n);
      RoundsGo(spec, k - 1, chosen);
      NotLaunched(w, chosen, n);
      StartedAfterFinish(Advance(w).tasks, chosen, n);
    }
  }

  lemma NotLaunched(w: Workflow, chosen: set<string>, n: string)
    requires AllTold(w, chosen) && !Started(w.tasks, n)
    requires forall x :: x in w.spec && x.name == n ==> exists d :: d in x.dependsOn && d !in chosen
    ensures !Started(Advance(w).tasks, n)
  {
    SetsWhenTold(w, chosen);
    forall i | 0 <= i < |Launch(w)| ensures Launch(w)[i].name != n {
      var x := Launch(w)[i];
      assert x in Launch(w);
      LaunchWhenTold(w, chosen, x);
    }
    CountNamed(Launch(w), n);
    CountLaunched(w.tasks, Launch(w), n);
    CountStarted(w.tasks, n);
    CountStarted(w.tasks + NewTasks(Launch(w)), n);
  }

  /** Two ready steps of a name without a task are both launched. */
  lemma BothLaunched(w: Workflow, chosen: set<string>, i: nat, j: nat)
    requires Going(w, w.spec, chosen) && w.status == Running
    requires i < j < |w.spec| && w.spec[i].name == w.spec[j].name != "" && !Started(w.tasks, w.spec[i].name)
    requires forall d :: d in Joint(w.spec, i, j) ==> d in Done(w)
    ensures TaskCount(Advance(w).tasks, w.spec[i].name) >= 2
  {
    var n := w.spec[i].name;
    SetsWhenTold(w, chosen);
    assert n in Names(w.spec);
    TwoReady(w.spec, Done(w), i, j);
    CountToLaunch(ReadySteps(w.spec, Done(w)), StepStates(w.tasks), n);
    CountLaunched(w.tasks, Launch(w), n);
  }

  /** Letting more steps succeed at the end. */
  lemma FinishMore(w: Workflow, chosen: set<string>, more: set<string>)
    requires Going(w, w.spec, chosen) && w.status == Running && chosen <= more
    ensures var w' := w.(tasks := Finish(w.tasks, more));
      Possible(w, Changed(w'.tasks)) && Going(w', w.spec, more) && w'.status == Running
  {
  }

  /** The run: everything early succeeds, round by round, until all that the two steps wait for has
      started; then all of that succeeds; then advance is called. */
  lemma {:induction false} LaunchesBoth(spec: seq<StepSpec>, i: nat, j: nat, k: nat)
    requires i < j < |spec| && spec[i].name == spec[j].name && "" !in Names(spec)
    requires var w := Rounds(spec, k, EarlySteps(spec, i, j));
      && w.status == Running && !Started(w.tasks, spec[i].name)
      && forall d :: d in Joint(spec, i, j) ==> Started(w.tasks, d)
    requires "" !in Joint(spec, i, j)
    ensures !OneTaskPerStep(spec)
  {
    var early := EarlySteps(spec, i, j);
    var w, more := Rounds(spec, k, early), early + JointSet(spec, i, j);
    RoundsGo(spec, k, early);
    FinishMore(w, early, more);
    var w' := w.(tasks := Finish(w.tasks, more));
    assert spec[i].name in Names(spec);
    forall n ensures Started(w'.tasks, n) <==> Started(w.tasks, n) { StartedAfterFinish(w.tasks, more, n); }
    SetsWhenTold(w', more);
    BothLaunched(w', more, i, j);
    var evs := RoundsAreRuns(spec, k, early);
    RunThen(Start(spec), evs, Changed(w'.tasks));
    RunThen(Start(spec), evs + [Changed(w'.tasks)], Advanced);
    TwoTasks(spec, evs + [Changed(w'.tasks)] + [Advanced], spec[i].name);
  }

  lemma NotCompleted(spec: seq<StepSpec>, k: nat, chosen: set<string>, n: string)
    requires n in Names(spec) && !Started(Rounds(spec, k, chosen).tasks, n)
    ensures Rounds(spec, k, chosen).status == Running
  {
    RoundsGo(spec, k, chosen);
    SetsWhenTold(Rounds(spec, k, chosen), chosen);
  }

  lemma JointIsNamed(spec: seq<StepSpec>, i: nat, j: nat, u: string)
    requires Closed(spec) && i < |spec| && j < |spec| && spec[i].name == spec[j].name && u in Joint(spec, i, j)
    ensures u in Names(spec)
  {
    JointIsAbove(spec, i, j, u);
    assert (u, spec[i].name).0 in Names(spec);
  }

  lemma FreeTwins(spec: seq<StepSpec>, i: nat, j: nat)
    requires i < j < |spec| && spec[i].name == spec[j].name && "" !in Names(spec) && Joint(spec, i, j) == []
    ensures !OneTaskPerStep(spec)
  {
    LaunchesBoth(spec, i, j, 0);
  }

  lemma LateTwins(spec: seq<StepSpec>, i: nat, j: nat)
    requires i < j < |spec| && spec[i].name == spec[j].name && "" !in Names(spec)
    requires Acyclic(Edges(spec)) && Closed(spec)
    requires forall k :: 0 <= k < |spec| && spec[k].name == spec[i].name ==> WaitsLate(spec, i, j, spec[k])
    ensures !OneTaskPerStep(spec)
  {
    var n, k, early := spec[i].name, |Names(spec)|, EarlySteps(spec, i, j);
    assert n in Names(spec);
    forall x | x in spec && x.name == n ensures exists d :: d in x.dependsOn && d !in early {
      var m :| 0 <= m < |spec| && spec[m] == x;
      assert WaitsLate(spec, i, j, spec[m]);
    }
    NeverLaunched(spec, k, early, n);
    NotCompleted(spec, k, early, n);
    EarlyIsGrounded(spec, i, j);
    forall d | d in Joint(spec, i, j) ensures Started(Rounds(spec, k, early).tasks, d) && d in Names(spec) {
      JointIsNamed(spec, i, j, d);
      AllStarted(spec, k, early, d, early + JointSet(spec, i, j));
    }
    LaunchesBoth(spec, i, j, k);
  }

  /** In every validated spec, whatever other names it repeats: two steps of one name that can get ready
      together are launched together in some run. */
  lemma TogetherLaunchesTwice(spec: seq<StepSpec>, i: nat, j: nat)
    requires Acyclic(Edges(spec)) && !exists i: nat, d :: UnknownDependency(spec, i, d)
    requires i < j < |spec| && spec[i].name == spec[j].name && Together(spec, i, j)
    ensures !OneTaskPerStep(spec)
  {
    KnownMeansClosed(spec);
    if "" in Names(spec) {
      EmptyNameLaunchesTwice(spec);
    } else if Joint(spec, i, j) == [] {
      FreeTwins(spec, i, j);
    } else {
      LateTwins(spec, i, j);
    }
  }

  /** Steps of one name wait for the same steps. */
  ghost predicate SameDependencies(spec: seq<StepSpec>, n: string) {
    forall x, y :: x in spec && y in spec && x.name == n && y.name == n ==>
      forall d :: d in x.dependsOn ==> d in y.dependsOn
  }

  /** Without cycles, some member of a set is above no other. */
  lemma {:induction false} SomeLast(es: seq<Edge>, within: set<string>) returns (d: string)
    requires Acyclic(es) && within != {}
    ensures d in within && forall u :: u in within ==> !Above(es, d, u)
    decreases |within|
  {
    var first :| first in within;
    var below := set u | u in within && Above(es, first, u);
    assert forall u :: u in within && Above(es, first, u) ==> u in below;
    if below == {} {
      d := first;
    } else {
      NotAboveItself(es, first);
      SubsetSize(below, within - {first});
      d := SomeLast(es, below);
      forall u | u in within ensures !Above(es, d, u) {
        if Above(es, d, u) { AboveTransitive(es, first, d, u); }
      }
    }
  }

  /** Something the two steps wait for is not early. */
  lemma SomethingLate(spec: seq<StepSpec>, i: nat, j: nat) returns (d: string)
    requires Acyclic(Edges(spec)) && i < |spec| && j < |spec| && Joint(spec, i, j) != []
    ensures d in Joint(spec, i, j) && !Early(spec, i, j, d)
  {
    assert Joint(spec, i, j)[0] in JointSet(spec, i, j);
    d := SomeLast(Edges(spec), JointSet(spec, i, j));
    forall u | u in Joint(spec, i, j) ensures !Above(Edges(spec), d, u) { assert u in JointSet(spec, i, j); }
  }

  lemma SharedByAll(spec: seq<StepSpec>, i: nat, j: nat, k: nat, d: string)
    requires i < |spec| && j < |spec| && k < |spec| && SameDependencies(spec, spec[i].name)
    requires spec[j].name == spec[i].name && spec[k].name == spec[i].name && d in Joint(spec, i, j)
    ensures d in spec[k].dependsOn
  {
    assert spec[i] in spec && spec[j] in spec && spec[k] in spec;
  }

  lemma SameMeansTogether(spec: seq<StepSpec>, i: nat, j: nat)
    requires Acyclic(Edges(spec))
    requires i < j < |spec| && spec[i].name == spec[j].name && SameDependencies(spec, spec[i].name)
    ensures Together(spec, i, j)
  {
    if Joint(spec, i, j) != [] {
      var d := SomethingLate(spec, i, j);
      forall k | 0 <= k < |spec| && spec[k].name == spec[i].name ensures WaitsLate(spec, i, j, spec[k]) {
        SharedByAll(spec, i, j, k, d);
      }
    }
  }

  /** In particular, if all steps of a name wait for the same steps. */
  lemma SharedNameLaunchesTwice(spec: seq<StepSpec>, i: nat, j: nat)
    requires Acyclic(Edges(spec)) && !exists i: nat, d :: UnknownDependency(spec, i, d)
    requires i < j < |spec| && spec[i].name == spec[j].name && SameDependencies(spec, spec[i].name)
    ensures !OneTaskPerStep(spec)
  {
    SameMeansTogether(spec, i, j);
    TogetherLaunchesTwice(spec, i, j);
  }

  /** Exactly when every step of a validated spec gets at most one task in every run, as long as steps
      of one name wait for the same steps: when the names are distinct and none is empty.  With
      distinct names the condition is that no step is named "". */
  lemma OneTaskPerStepIff(spec: seq<StepSpec>)
    requires Acyclic(Edges(spec)) && !exists i: nat, d :: UnknownDependency(spec, i, d)
    requires forall n :: n in Names(spec) ==> SameDependencies(spec, n)
    ensures OneTaskPerStep(spec) <==> WellNamed(spec)
  {
    if WellNamed(spec) {
      forall evs | PossibleRun(Start(spec), evs) ensures DistinctSteps(After(Start(spec), evs).tasks) {
        WorkflowInvRun(Start(spec), evs);
      }
    } else if i :| 0 <= i < |spec| && spec[i].name == "" {
      assert spec[i].name in Names(spec);
      EmptyNameLaunchesTwice(spec);
    } else {
      var i, j :| 0 <= i < j < |spec| && spec[i].name == spec[j].name;
      assert spec[i].name in Names(spec);
      SharedNameLaunchesTwice(spec, i, j);
    }
  }
}
