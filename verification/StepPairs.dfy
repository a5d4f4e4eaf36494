/** Specs in which one name is given to two steps.  The two clash exactly if they can get ready together;
    if they cannot, because all one of them waits for is done before the last thing that the two wait
    for has started, every run launches the name at most once. */
module StepPairs {
  import opened Store
  import opened Graphs
  import opened Dag
  import opened Workflows
  import opened WorkflowRuns
  import opened WorkflowRounds
  import opened StepNames

  /** Steps i and j have the same name, no other two have, and no name is empty. */
  ghost predicate OnlyPair(spec: seq<StepSpec>, i: nat, j: nat) {
    && i < j < |spec| && spec[i].name == spec[j].name && "" !in Names(spec)
    && forall a, b :: 0 <= a < b < |spec| && spec[a].name == spec[b].name ==> a == i && b == j
  }

  /** Everything this step waits for has to succeed before all that the two wait for can start. */
  ghost predicate AllEarly(spec: seq<StepSpec>, i: nat, j: nat, x: StepSpec)
    requires i < |spec| && j < |spec|
  {
    forall d :: d in x.dependsOn ==> Early(spec, i, j, d)
  }

  ghost predicate GivenUp(tasks: seq<StepTask>, n: string) {
    exists t :: 0 <= t < |tasks| && tasks[t].step == n && tasks[t].effect && !tasks[t].state.Succeeded?
  }

  /** Whatever a started step other than those named n waits for has its effect. */
  ghost predicate OthersEffected(spec: seq<StepSpec>, tasks: seq<StepTask>, n: string) {
    forall t, d :: 0 <= t < |tasks| && tasks[t].step != n && (d, tasks[t].step) in Edges(spec) ==> Effected(tasks, d)
  }

  ghost predicate TasksSound(spec: seq<StepSpec>, tasks: seq<StepTask>) {
    && DistinctSteps(tasks)
    && forall t :: 0 <= t < |tasks| ==>
         tasks[t].step in Names(spec) && tasks[t].step != "" && (tasks[t].state.Succeeded? ==> tasks[t].effect)
  }

  /** If all that the two steps wait for has started and they have not, something that x, one of the
      two, waits for has been given up. */
  ghost predicate Gap(spec: seq<StepSpec>, i: nat, j: nat, x: StepSpec, tasks: seq<StepTask>)
    requires i < |spec| && j < |spec|
  {
    (forall u :: u in Joint(spec, i, j) ==> Started(tasks, u)) ==>
      Started(tasks, spec[i].name) || exists v :: v in x.dependsOn && GivenUp(tasks, v)
  }

  ghost predicate PairInv(w: Workflow, i: nat, j: nat, x: StepSpec) {
    && OnlyPair(w.spec, i, j) && TasksSound(w.spec, w.tasks)
    && OthersEffected(w.spec, w.tasks, w.spec[i].name)
    && Gap(w.spec, i, j, x, w.tasks)
  }

  // ---- between the calls ----

  lemma GivenUpStays(tasks: seq<StepTask>, tasks': seq<StepTask>, n: string)
    requires |tasks'| == |tasks| && forall t :: 0 <= t < |tasks| ==> Allowed(tasks[t], tasks'[t])
    requires GivenUp(tasks, n)
    ensures GivenUp(tasks', n)
  {
    var t :| 0 <= t < |tasks| && tasks[t].step == n && tasks[t].effect && !tasks[t].state.Succeeded?;
    assert Allowed(tasks[t], tasks'[t]);
  }

  lemma PairChange(w: Workflow, tasks: seq<StepTask>, i: nat, j: nat, x: StepSpec)
    requires PairInv(w, i, j, x) && Possible(w, Changed(tasks))
    ensures PairInv(w.(tasks := tasks), i, j, x)
  {
    assert forall t :: 0 <= t < |tasks| ==> Allowed(w.tasks[t], tasks[t]);
    forall n ensures Started(tasks, n) <==> Started(w.tasks, n) { StartedAlike(w.tasks, tasks, n); }
    forall n | Effected(w.tasks, n) ensures Effected(tasks, n) { EffectedKept(w.tasks, tasks, n); }
    forall n | GivenUp(w.tasks, n) ensures GivenUp(tasks, n) { GivenUpStays(w.tasks, tasks, n); }
  }

  // ---- a call that launches ----

  function Completed(w: Workflow): set<string> {
    StepsIn(StepStates(w.tasks), Succeeded)
  }

  lemma ReadStates(w: Workflow)
    requires TasksSound(w.spec, w.tasks)
    ensures forall t :: 0 <= t < |w.tasks| && w.tasks[t].state.Succeeded? ==> w.tasks[t].step in Completed(w)
    ensures forall n :: n in StepStates(w.tasks) <==> Started(w.tasks, n)
    ensures forall n :: n in Completed(w) ==> Started(w.tasks, n) && Effected(w.tasks, n) && !GivenUp(w.tasks, n)
  {
    StatesAreTasks(w.tasks);
    forall n | n in Completed(w)
      ensures Started(w.tasks, n) && Effected(w.tasks, n) && !GivenUp(w.tasks, n)
    {
      assert Started(w.tasks, n);
      var t :| 0 <= t < |w.tasks| && w.tasks[t].step == n;
      assert w.tasks[t].state.Succeeded?;
    }
  }

  lemma LaunchedExact(w: Workflow, x: StepSpec)
    requires TasksSound(w.spec, w.tasks)
    ensures x in Launch(w) <==> x in w.spec && IsReady(x, Completed(w)) && !Started(w.tasks, x.name)
  {
    ReadStates(w);
    ReadyStepsExact(w.spec, Completed(w));
    ToLaunchExact(ReadySteps(w.spec, Completed(w)), StepStates(w.tasks));
  }

  /** Where two entries of a filtered list come from. */
  lemma {:induction false} ReadyFrom(steps: seq<StepSpec>, completed: set<string>, a: nat, b: nat)
    returns (p: nat, q: nat)
    requires a < b < |ReadySteps(steps, completed)|
    ensures p < q < |steps|
    ensures ReadySteps(steps, completed)[a] == steps[p] && ReadySteps(steps, completed)[b] == steps[q]
  {
    var last := |steps| - 1;
    var before := ReadySteps(steps[..last], completed);
    if b < |before| {
      p, q := ReadyFrom(steps[..last], completed, a, b);
    } else {
      p := OneReadyFrom(steps[..last], completed, a);
      q := last;
    }
  }

  lemma {:induction false} OneReadyFrom(steps: seq<StepSpec>, completed: set<string>, a: nat) returns (p: nat)
    requires a < |ReadySteps(steps, completed)|
    ensures p < |steps| && ReadySteps(steps, completed)[a] == steps[p]
  {
    var last := |steps| - 1;
    if a < |ReadySteps(steps[..last], completed)| {
      p := OneReadyFrom(steps[..last], completed, a);
    } else {
      p := last;
    }
  }

  lemma {:induction false} LaunchFrom(ready: seq<StepSpec>, states: map<string, TaskState>, a: nat, b: nat)
    returns (p: nat, q: nat)
    requires a < b < |ToLaunch(ready, states)|
    ensures p < q < |ready|
    ensures ToLaunch(ready, states)[a] == ready[p] && ToLaunch(ready, states)[b] == ready[q]
  {
    var last := |ready| - 1;
    var before := ToLaunch(ready[..last], states);
    if b < |before| {
      p, q := LaunchFrom(ready[..last], states, a, b);
    } else {
      p := OneLaunchFrom(ready[..last], states, a);
      q := last;
    }
  }

  lemma {:induction false} OneLaunchFrom(ready: seq<StepSpec>, states: map<string, TaskState>, a: nat)
    returns (p: nat)
    requires a < |ToLaunch(ready, states)|
    ensures p < |ready| && ToLaunch(ready, states)[a] == ready[p]
  {
    var last := |ready| - 1;
    if a < |ToLaunch(ready[..last], states)| {
      p := OneLaunchFrom(ready[..last], states, a);
    } else {
      p := last;
    }
  }

  lemma LaunchIndices(w: Workflow, a: nat, b: nat) returns (p: nat, q: nat)
    requires a < b < |Launch(w)|
    ensures p < q < |w.spec| && Launch(w)[a] == w.spec[p] && Launch(w)[b] == w.spec[q]
  {
    var ready := ReadySteps(w.spec, Completed(w));
    var k, l := LaunchFrom(ready, StepStates(w.tasks), a, b);
    p, q := ReadyFrom(w.spec, Completed(w), k, l);
  }

  /** The two steps are not both ready while neither has a task. */
  lemma NotBothReady(w: Workflow, i: nat, j: nat, x: StepSpec)
    requires PairInv(w, i, j, x) && (x == w.spec[i] || x == w.spec[j])
    requires !Started(w.tasks, w.spec[i].name)
    ensures !(IsReady(w.spec[i], Completed(w)) && IsReady(w.spec[j], Completed(w)))
  {
    ReadStates(w);
  }

  lemma PairLaunchDistinct(w: Workflow, i: nat, j: nat, x: StepSpec)
    requires PairInv(w, i, j, x) && (x == w.spec[i] || x == w.spec[j])
    ensures DistinctNames(Launch(w))
  {
    forall a, b | 0 <= a < b < |Launch(w)| ensures Launch(w)[a].name != Launch(w)[b].name {
      var p, q := LaunchIndices(w, a, b);
      assert Launch(w)[a] in Launch(w) && Launch(w)[b] in Launch(w);
      LaunchedExact(w, Launch(w)[a]);
      LaunchedExact(w, Launch(w)[b]);
      if p == i && q == j { NotBothReady(w, i, j, x); }
    }
  }

  lemma PairTasksSound(w: Workflow, i: nat, j: nat, x: StepSpec)
    requires PairInv(w, i, j, x) && (x == w.spec[i] || x == w.spec[j])
    ensures TasksSound(w.spec, w.tasks + NewTasks(Launch(w)))
  {
    PairLaunchDistinct(w, i, j, x);
    var xs, tasks := Launch(w), w.tasks + NewTasks(Launch(w));
    forall t | |w.tasks| <= t < |tasks|
      ensures tasks[t].step in Names(w.spec) && tasks[t].step != "" && !Started(w.tasks, tasks[t].step)
    {
      assert xs[t - |w.tasks|] in xs;
      LaunchedExact(w, xs[t - |w.tasks|]);
      var k :| 0 <= k < |w.spec| && w.spec[k] == xs[t - |w.tasks|];
      assert w.spec[k].name in Names(w.spec);
    }
  }

  lemma PairOthersEffected(w: Workflow, i: nat, j: nat, x: StepSpec)
    requires PairInv(w, i, j, x)
    ensures OthersEffected(w.spec, w.tasks + NewTasks(Launch(w)), w.spec[i].name)
  {
    var n, xs, tasks := w.spec[i].name, Launch(w), w.tasks + NewTasks(Launch(w));
    forall t, d | 0 <= t < |tasks| && tasks[t].step != n && (d, tasks[t].step) in Edges(w.spec)
      ensures Effected(tasks, d)
    {
      if t < |w.tasks| {
        assert tasks[t] == w.tasks[t];
      } else {
        LaunchedOtherReady(w, i, j, xs[t - |w.tasks|], d);
      }
      EffectedGrows(w.tasks, NewTasks(xs), d);
    }
  }

  lemma LaunchedOtherReady(w: Workflow, i: nat, j: nat, y: StepSpec, d: string)
    requires OnlyPair(w.spec, i, j) && TasksSound(w.spec, w.tasks)
    requires y in Launch(w) && y.name != w.spec[i].name && (d, y.name) in Edges(w.spec)
    ensures Effected(w.tasks, d)
  {
    LaunchedExact(w, y);
    ReadStates(w);
    EdgesAreDependencies(w.spec, d, y.name);
    var k :| 0 <= k < |w.spec| && w.spec[k].name == y.name && d in w.spec[k].dependsOn;
    var l :| 0 <= l < |w.spec| && w.spec[l] == y;
    assert k == l;
  }

  // ---- the gap stays closed ----

  /** Following a path back from a started step that does not pass the shared name. */
  lemma {:induction false} AncestorEffected(spec: seq<StepSpec>, tasks: seq<StepTask>, n: string, p: seq<string>)
    requires OthersEffected(spec, tasks, n) && Path(Edges(spec), p) && |p| >= 2 && Started(tasks, p[|p| - 1])
    requires forall k :: 1 <= k < |p| ==> p[k] != n
    ensures Effected(tasks, p[0])
    decreases |p|
  {
    var last := |p| - 1;
    assert (p[last - 1], p[last - 1 + 1]) in Edges(spec);
    assert Effected(tasks, p[last - 1]);
    if |p| > 2 {
      assert Path(Edges(spec), p[..last]);
      AncestorEffected(spec, tasks, n, p[..last]);
    }
  }

  lemma TailIsAbove(es: seq<Edge>, p: seq<string>, k: nat)
    requires Path(es, p) && k < |p| - 1
    ensures Above(es, p[k], p[|p| - 1])
  {
    Segment(es, p, k, |p| - 1);
    var tail := p[k..|p| - 1 + 1];
    assert |tail| >= 2 && tail[0] == p[k] && tail[|tail| - 1] == p[|p| - 1];
  }

  lemma PathAvoidsName(spec: seq<StepSpec>, i: nat, j: nat, p: seq<string>, k: nat)
    requires Acyclic(Edges(spec)) && i < |spec| && j < |spec| && spec[i].name == spec[j].name
    requires Path(Edges(spec), p) && p[|p| - 1] in Joint(spec, i, j) && k < |p|
    ensures p[k] != spec[i].name
  {
    var es, n, u := Edges(spec), spec[i].name, p[|p| - 1];
    NotAboveItself(es, n);
    JointIsAbove(spec, i, j, u);
    DirectlyAbove(es, u, n);
    if k < |p| - 1 {
      TailIsAbove(es, p, k);
      AboveTransitive(es, p[k], u, n);
    }
  }

  lemma EarlyEffected(spec: seq<StepSpec>, i: nat, j: nat, tasks: seq<StepTask>, d: string)
    requires Acyclic(Edges(spec)) && i < |spec| && j < |spec| && spec[i].name == spec[j].name
    requires OthersEffected(spec, tasks, spec[i].name) && Early(spec, i, j, d)
    requires forall u :: u in Joint(spec, i, j) ==> Started(tasks, u)
    ensures Effected(tasks, d)
  {
    var u :| u in Joint(spec, i, j) && Above(Edges(spec), d, u);
    var p :| Path(Edges(spec), p) && |p| >= 2 && p[0] == d && p[|p| - 1] == u;
    forall k | 1 <= k < |p| ensures p[k] != spec[i].name { PathAvoidsName(spec, i, j, p, k); }
    AncestorEffected(spec, tasks, spec[i].name, p);
  }

  lemma EffectedBefore(tasks: seq<StepTask>, xs: seq<StepSpec>, n: string)
    requires Effected(tasks + NewTasks(xs), n)
    ensures Effected(tasks, n)
  {
    var t :| 0 <= t < |tasks + NewTasks(xs)| && (tasks + NewTasks(xs))[t].step == n && (tasks + NewTasks(xs))[t].effect;
    assert t < |tasks| && tasks[t].effect;
  }

  lemma EffectedIsDoneOrGivenUp(w: Workflow, n: string)
    requires TasksSound(w.spec, w.tasks) && Effected(w.tasks, n)
    ensures n in Completed(w) || GivenUp(w.tasks, n)
  {
    ReadStates(w);
    var t :| 0 <= t < |w.tasks| && w.tasks[t].step == n && w.tasks[t].effect;
    assert w.tasks[t].state.Succeeded? ==> w.tasks[t].step in Completed(w);
  }

  lemma GivenUpGrows(tasks: seq<StepTask>, more: seq<StepTask>, n: string)
    requires GivenUp(tasks, n)
    ensures GivenUp(tasks + more, n)
  {
    var t :| 0 <= t < |tasks| && tasks[t].step == n && tasks[t].effect && !tasks[t].state.Succeeded?;
    assert (tasks + more)[t] == tasks[t];
  }

  /** A step of the pair that waits only for early steps is launched no later than the last thing the
      two wait for, unless something it waits for has been given up. */
  lemma PairGap(w: Workflow, i: nat, j: nat, x: StepSpec)
    requires PairInv(w, i, j, x) && (x == w.spec[i] || x == w.spec[j])
    requires Acyclic(Edges(w.spec)) && AllEarly(w.spec, i, j, x)
    ensures Gap(w.spec, i, j, x, w.tasks + NewTasks(Launch(w)))
  {
    var spec, n, tasks := w.spec, w.spec[i].name, w.tasks + NewTasks(Launch(w));
    if (forall u :: u in Joint(spec, i, j) ==> Started(tasks, u)) && !Started(tasks, n) {
      PairOthersEffected(w, i, j, x);
      forall d | d in x.dependsOn ensures d in Completed(w) || GivenUp(w.tasks, d) {
        EarlyEffected(spec, i, j, tasks, d);
        EffectedBefore(w.tasks, Launch(w), d);
        EffectedIsDoneOrGivenUp(w, d);
      }
      SomethingGivenUp(w, i, x);
      var v :| v in x.dependsOn && GivenUp(w.tasks, v);
      GivenUpGrows(w.tasks, NewTasks(Launch(w)), v);
    }
  }

  lemma SomethingGivenUp(w: Workflow, i: nat, x: StepSpec)
    requires i < |w.spec| && TasksSound(w.spec, w.tasks) && x in w.spec && x.name == w.spec[i].name
    requires !Started(w.tasks + NewTasks(Launch(w)), x.name)
    requires forall d :: d in x.dependsOn ==> d in Completed(w) || GivenUp(w.tasks, d)
    ensures exists v :: v in x.dependsOn && GivenUp(w.tasks, v)
  {
    ReadStates(w);
    if Started(w.tasks, x.name) { StartedGrows(w.tasks, NewTasks(Launch(w)), x.name); }
    LaunchedExact(w, x);
    if x in Launch(w) { StartedByLaunch(w.tasks, Launch(w), x); }
    var v :| v in x.dependsOn && v !in Completed(w);
  }

  lemma PairAdvance(w: Workflow, i: nat, j: nat, x: StepSpec)
    requires PairInv(w, i, j, x) && (x == w.spec[i] || x == w.spec[j])
    requires Acyclic(Edges(w.spec)) && AllEarly(w.spec, i, j, x)
    ensures PairInv(Advance(w), i, j, x) && Advance(w).spec == w.spec
  {
    PairTasksSound(w, i, j, x);
    PairOthersEffected(w, i, j, x);
    PairGap(w, i, j, x);
  }

  lemma {:induction false} PairRun(w: Workflow, evs: seq<Event>, i: nat, j: nat, x: StepSpec)
    requires PairInv(w, i, j, x) && (x == w.spec[i] || x == w.spec[j]) && PossibleRun(w, evs)
    requires Acyclic(Edges(w.spec)) && AllEarly(w.spec, i, j, x)
    ensures DistinctSteps(After(w, evs).tasks)
    decreases evs
  {
    if evs != [] {
      if evs[0].Advanced? { PairAdvance(w, i, j, x); } else { PairChange(w, evs[0].tasks, i, j, x); }
      PairRun(Happen(w, evs[0]), evs[1..], i, j, x);
    }
  }

  lemma PairStart(spec: seq<StepSpec>, i: nat, j: nat, x: StepSpec)
    requires OnlyPair(spec, i, j) && Joint(spec, i, j) != []
    ensures PairInv(Start(spec), i, j, x)
  {
    assert Joint(spec, i, j)[0] in Joint(spec, i, j);
  }

  lemma OneIsEarly(spec: seq<StepSpec>, i: nat, j: nat) returns (x: StepSpec)
    requires OnlyPair(spec, i, j) && !Together(spec, i, j)
    ensures (x == spec[i] || x == spec[j]) && AllEarly(spec, i, j, x)
  {
    var k :| 0 <= k < |spec| && spec[k].name == spec[i].name && !WaitsLate(spec, i, j, spec[k]);
    x := spec[k];
  }

  /** Exactly when two steps that share their name, in a validated spec with no other shared name, are
      kept apart: every step gets at most one task in every run if and only if the two cannot get ready
      together. */
  lemma PairIff(spec: seq<StepSpec>, i: nat, j: nat)
    requires Acyclic(Edges(spec)) && !exists i: nat, d :: UnknownDependency(spec, i, d)
    requires OnlyPair(spec, i, j)
    ensures OneTaskPerStep(spec) <==> !Together(spec, i, j)
  {
    if Together(spec, i, j) {
      TogetherLaunchesTwice(spec, i, j);
    } else {
      var x := OneIsEarly(spec, i, j);
      PairStart(spec, i, j, x);
      forall evs | PossibleRun(Start(spec), evs) ensures DistinctSteps(After(Start(spec), evs).tasks) {
        PairRun(Start(spec), evs, i, j, x);
      }
    }
  }
}
