/** The workflow state machine over whole runs: calls of advance, one at a time, with the workers
    changing task rows in between. */
module WorkflowRuns {
  import opened Store
  import opened Graphs
  import opened Dag
  import opened Workflows

  ghost predicate DistinctNames(steps: seq<StepSpec>) {
    forall i, j :: 0 <= i < j < |steps| ==> steps[i].name != steps[j].name
  }

  /** No step name twice and none empty. */
  ghost predicate WellNamed(spec: seq<StepSpec>) {
    DistinctNames(spec) && forall i :: 0 <= i < |spec| ==> spec[i].name != ""
  }

  /** Every dependency names a step of the spec. */
  ghost predicate Closed(spec: seq<StepSpec>) {
    forall e :: e in Edges(spec) ==> e.0 in Names(spec)
  }

  /** What the workers may do to a task row between two calls.  The effect row, once there, stays; the
      row says succeeded only with the effect row in place; and a row that was overwritten after its
      effect was in never says succeeded again.  Anything else is possible.  `QueueRuns` proves all
      three of every step of the task protocol. */
  predicate Allowed(t: StepTask, t': StepTask) {
    && t'.step == t.step
    && (t.effect ==> t'.effect)
    && (t'.state.Succeeded? ==> t'.effect)
    && (t.effect && !t.state.Succeeded? ==> !t'.state.Succeeded?)
  }

  datatype Event = Advanced | Changed(tasks: seq<StepTask>)

  predicate Possible(w: Workflow, ev: Event) {
    ev.Changed? ==>
      |ev.tasks| == |w.tasks| && forall i :: 0 <= i < |w.tasks| ==> Allowed(w.tasks[i], ev.tasks[i])
  }

  function Happen(w: Workflow, ev: Event): Workflow {
    match ev
    case Advanced => Advance(w)
    case Changed(tasks) => w.(tasks := tasks)
  }

  predicate PossibleRun(w: Workflow, evs: seq<Event>)
    decreases evs
  {
    evs == [] || (Possible(w, evs[0]) && PossibleRun(Happen(w, evs[0]), evs[1..]))
  }

  function After(w: Workflow, evs: seq<Event>): Workflow
    requires PossibleRun(w, evs)
    decreases evs
  {
    if evs == [] then w else After(Happen(w, evs[0]), evs[1..])
  }

  ghost predicate DistinctSteps(tasks: seq<StepTask>) {
    forall i, j :: 0 <= i < j < |tasks| ==> tasks[i].step != tasks[j].step
  }

  ghost predicate Started(tasks: seq<StepTask>, n: string) {
    exists i :: 0 <= i < |tasks| && tasks[i].step == n
  }

  ghost predicate Effected(tasks: seq<StepTask>, n: string) {
    exists i :: 0 <= i < |tasks| && tasks[i].step == n && tasks[i].effect
  }

  ghost predicate DependenciesEffected(spec: seq<StepSpec>, tasks: seq<StepTask>) {
    forall i, d :: 0 <= i < |tasks| && (d, tasks[i].step) in Edges(spec) ==> Effected(tasks, d)
  }

  ghost predicate WorkflowInv(w: Workflow) {
    && WellNamed(w.spec)
    && DistinctSteps(w.tasks)
    && (forall i :: 0 <= i < |w.tasks| ==>
          w.tasks[i].step in Names(w.spec) && (w.tasks[i].state.Succeeded? ==> w.tasks[i].effect))
    && DependenciesEffected(w.spec, w.tasks)
    && (w.status.Completed? ==> forall n :: n in Names(w.spec) ==> Effected(w.tasks, n))
    && |w.published| == |w.tasks|
    && (forall i :: 0 <= i < |w.tasks| ==> w.published[i].step == w.tasks[i].step)
  }

  // ---- what advance reads ----

  lemma StartedLast(tasks: seq<StepTask>, n: string)
    requires tasks != []
    ensures Started(tasks, n) <==> Started(tasks[..|tasks| - 1], n) || tasks[|tasks| - 1].step == n
  {
    var before := tasks[..|tasks| - 1];
    if Started(before, n) {
      var i :| 0 <= i < |before| && before[i].step == n;
      assert tasks[i].step == n;
    }
    assert forall i :: 0 <= i < |before| ==> before[i] == tasks[i];
  }

  lemma {:induction false} StatesAreStarted(tasks: seq<StepTask>, n: string)
    requires forall i :: 0 <= i < |tasks| ==> tasks[i].step != ""
    ensures n in StepStates(tasks) <==> Started(tasks, n)
  {
    if tasks != [] {
      StatesAreStarted(tasks[..|tasks| - 1], n);
      StartedLast(tasks, n);
    }
  }

  lemma {:induction false} StateOfTask(tasks: seq<StepTask>, i: nat)
    requires DistinctSteps(tasks) && i < |tasks| && tasks[i].step != ""
    ensures tasks[i].step in StepStates(tasks) && StepStates(tasks)[tasks[i].step] == tasks[i].state
  {
    var last := |tasks| - 1;
    if i < last {
      assert tasks[..last][i] == tasks[i];
      StateOfTask(tasks[..last], i);
    }
  }

  /** For rows in any order and with any repetitions: a named step is in the state of its last row. */
  lemma {:induction false} LastRowWins(tasks: seq<StepTask>, i: nat)
    requires i < |tasks| && tasks[i].step != "" && forall j :: i < j < |tasks| ==> tasks[j].step != tasks[i].step
    ensures tasks[i].step in StepStates(tasks) && StepStates(tasks)[tasks[i].step] == tasks[i].state
  {
    var last := |tasks| - 1;
    if i < last {
      assert tasks[..last][i] == tasks[i];
      LastRowWins(tasks[..last], i);
    }
  }

  lemma StatesAreTasks(tasks: seq<StepTask>)
    requires DistinctSteps(tasks) && forall i :: 0 <= i < |tasks| ==> tasks[i].step != ""
    ensures forall i :: 0 <= i < |tasks| ==>
      tasks[i].step in StepStates(tasks) && StepStates(tasks)[tasks[i].step] == tasks[i].state
    ensures forall n :: n in StepStates(tasks) <==> Started(tasks, n)
  {
    forall i | 0 <= i < |tasks|
      ensures tasks[i].step in StepStates(tasks) && StepStates(tasks)[tasks[i].step] == tasks[i].state
    {
      StateOfTask(tasks, i);
    }
    forall n ensures n in StepStates(tasks) <==> Started(tasks, n) {
      StatesAreStarted(tasks, n);
    }
  }

  lemma {:induction false} ReadyStepsExact(steps: seq<StepSpec>, completed: set<string>)
    ensures forall x :: x in ReadySteps(steps, completed) <==> x in steps && IsReady(x, completed)
    ensures DistinctNames(steps) ==> DistinctNames(ReadySteps(steps, completed))
  {
    if steps != [] {
      var last := |steps| - 1;
      ReadyStepsExact(steps[..last], completed);
      assert steps == steps[..last] + [steps[last]];
      if DistinctNames(steps) {
        var rest := ReadySteps(steps[..last], completed);
        forall i | 0 <= i < |rest| ensures rest[i].name != steps[last].name {
          assert rest[i] in steps[..last];
        }
      }
    }
  }

  lemma {:induction false} ToLaunchExact(ready: seq<StepSpec>, states: map<string, TaskState>)
    ensures forall x :: x in ToLaunch(ready, states) <==> x in ready && x.name !in states
    ensures DistinctNames(ready) ==> DistinctNames(ToLaunch(ready, states))
  {
    if ready != [] {
      var last := |ready| - 1;
      ToLaunchExact(ready[..last], states);
      assert ready == ready[..last] + [ready[last]];
      if DistinctNames(ready) {
        var rest := ToLaunch(ready[..last], states);
        forall i | 0 <= i < |rest| ensures rest[i].name != ready[last].name {
          assert rest[i] in ready[..last];
        }
      }
    }
  }

  lemma CompletedAreEffected(w: Workflow, n: string)
    requires WorkflowInv(w) && n in StepsIn(StepStates(w.tasks), Succeeded)
    ensures Effected(w.tasks, n)
  {
    NamesNotEmpty(w);
    StatesAreTasks(w.tasks);
    assert Started(w.tasks, n);
    var i :| 0 <= i < |w.tasks| && w.tasks[i].step == n;
    assert w.tasks[i].state.Succeeded?;
  }

  lemma NamesNotEmpty(w: Workflow)
    requires WorkflowInv(w)
    ensures forall i :: 0 <= i < |w.tasks| ==> w.tasks[i].step != ""
  {
  }

  /** What a launched step is: a step of the spec without a task whose dependencies have all
      succeeded. */
  lemma LaunchExact(w: Workflow)
    requires WorkflowInv(w)
    ensures DistinctNames(Launch(w))
    ensures forall x :: x in Launch(w) <==>
      x in w.spec && IsReady(x, StepsIn(StepStates(w.tasks), Succeeded)) && !Started(w.tasks, x.name)
  {
    NamesNotEmpty(w);
    StatesAreTasks(w.tasks);
    var states := StepStates(w.tasks);
    ReadyStepsExact(w.spec, StepsIn(states, Succeeded));
    ToLaunchExact(ReadySteps(w.spec, StepsIn(states, Succeeded)), states);
  }

  // ---- safety ----

  lemma SameName(spec: seq<StepSpec>, x: StepSpec, y: StepSpec)
    requires DistinctNames(spec) && x in spec && y in spec && x.name == y.name
    ensures x == y
  {
  }

  lemma EffectedGrows(tasks: seq<StepTask>, more: seq<StepTask>, n: string)
    requires Effected(tasks, n)
    ensures Effected(tasks + more, n)
  {
    var i :| 0 <= i < |tasks| && tasks[i].step == n && tasks[i].effect;
    assert (tasks + more)[i] == tasks[i];
  }

  lemma LaunchedDependencies(w: Workflow, x: StepSpec, d: string)
    requires WorkflowInv(w) && x in Launch(w) && (d, x.name) in Edges(w.spec)
    ensures Effected(w.tasks, d)
  {
    LaunchExact(w);
    EdgesAreDependencies(w.spec, d, x.name);
    var i :| 0 <= i < |w.spec| && w.spec[i].name == x.name && d in w.spec[i].dependsOn;
    SameName(w.spec, x, w.spec[i]);
    CompletedAreEffected(w, d);
  }

  lemma LaunchDistinct(w: Workflow)
    requires WorkflowInv(w)
    ensures DistinctSteps(w.tasks + NewTasks(Launch(w)))
  {
    LaunchExact(w);
    var xs := Launch(w);
    var tasks := w.tasks + NewTasks(xs);
    forall i, j | 0 <= i < j < |tasks| ensures tasks[i].step != tasks[j].step {
      if j >= |w.tasks| {
        assert xs[j - |w.tasks|] in xs;
        assert !Started(w.tasks, xs[j - |w.tasks|].name);
      }
    }
  }

  lemma LaunchKeepsDependencies(w: Workflow)
    requires WorkflowInv(w)
    ensures DependenciesEffected(w.spec, w.tasks + NewTasks(Launch(w)))
  {
    var xs := Launch(w);
    var tasks := w.tasks + NewTasks(xs);
    forall i, d | 0 <= i < |tasks| && (d, tasks[i].step) in Edges(w.spec) ensures Effected(tasks, d) {
      if i < |w.tasks| {
        assert tasks[i] == w.tasks[i];
      } else {
        assert xs[i - |w.tasks|] in xs;
        LaunchedDependencies(w, xs[i - |w.tasks|], d);
      }
      EffectedGrows(w.tasks, NewTasks(xs), d);
    }
  }

  lemma LaunchFromSpec(w: Workflow)
    requires WorkflowInv(w)
    ensures forall i :: 0 <= i < |Launch(w)| ==> Launch(w)[i].name in Names(w.spec)
  {
    var xs := Launch(w);
    LaunchExact(w);
    forall i | 0 <= i < |xs| ensures xs[i].name in Names(w.spec) {
      assert xs[i] in xs;
      var k :| 0 <= k < |w.spec| && w.spec[k] == xs[i];
    }
  }

  lemma LaunchInv(w: Workflow, w': Workflow, xs: seq<StepSpec>)
    requires WorkflowInv(w) && w.status == Running
    requires w' == w.(tasks := w.tasks + NewTasks(xs), published := w.published + NewMessages(xs))
    requires forall i :: 0 <= i < |xs| ==> xs[i].name in Names(w.spec)
    requires DistinctSteps(w'.tasks) && DependenciesEffected(w.spec, w'.tasks)
    ensures WorkflowInv(w')
  {
  }

  lemma AdvanceInv(w: Workflow)
    requires WorkflowInv(w)
    ensures WorkflowInv(Advance(w))
  {
    var states := StepStates(w.tasks);
    if w.status == Running && StepsIn(states, Dead) == {} {
      if Names(w.spec) <= StepsIn(states, Succeeded) {
        forall n | n in Names(w.spec) ensures Effected(w.tasks, n) { CompletedAreEffected(w, n); }
      } else {
        LaunchFromSpec(w);
        LaunchDistinct(w);
        LaunchKeepsDependencies(w);
        LaunchInv(w, Advance(w), Launch(w));
      }
    }
  }

  lemma EffectedKept(tasks: seq<StepTask>, tasks': seq<StepTask>, n: string)
    requires |tasks'| == |tasks| && forall i :: 0 <= i < |tasks| ==> Allowed(tasks[i], tasks'[i])
    requires Effected(tasks, n)
    ensures Effected(tasks', n)
  {
    var i :| 0 <= i < |tasks| && tasks[i].step == n && tasks[i].effect;
    assert Allowed(tasks[i], tasks'[i]);
  }

  lemma ChangeInv(w: Workflow, tasks: seq<StepTask>)
    requires WorkflowInv(w) && Possible(w, Changed(tasks))
    ensures WorkflowInv(w.(tasks := tasks))
  {
    var w' := w.(tasks := tasks);
    forall n | Effected(w.tasks, n) ensures Effected(tasks, n) { EffectedKept(w.tasks, tasks, n); }
    assert forall i :: 0 <= i < |tasks| ==> Allowed(w.tasks[i], tasks[i]);
  }

  lemma {:induction false} WorkflowInvRun(w: Workflow, evs: seq<Event>)
    requires WorkflowInv(w) && PossibleRun(w, evs)
    ensures WorkflowInv(After(w, evs))
    decreases evs
  {
    if evs != [] {
      if evs[0].Advanced? { AdvanceInv(w); } else { ChangeInv(w, evs[0].tasks); }
      WorkflowInvRun(Happen(w, evs[0]), evs[1..]);
    }
  }

  lemma {:induction false} AncestorsEffected(w: Workflow, p: seq<string>)
    requires WorkflowInv(w) && Path(Edges(w.spec), p) && |p| >= 2 && Started(w.tasks, p[|p| - 1])
    ensures Effected(w.tasks, p[0])
    decreases |p|
  {
    var last := |p| - 1;
    assert (p[last - 1], p[last - 1 + 1]) in Edges(w.spec);
    assert Effected(w.tasks, p[last - 1]);
    if |p| > 2 {
      assert Path(Edges(w.spec), p[..last]);
      AncestorsEffected(w, p[..last]);
    }
  }

  /** Safety of every run: a step gets at most one task and one published envelope, whatever has a
      task has all its transitive ancestors' effects committed, and completed means that every step's
      effect is. */
  lemma WorkflowSafety(spec: seq<StepSpec>, evs: seq<Event>)
    requires WellNamed(spec) && PossibleRun(Start(spec), evs)
    ensures var w := After(Start(spec), evs);
      && (forall i, j :: 0 <= i < j < |w.tasks| ==> w.tasks[i].step != w.tasks[j].step)
      && |w.published| == |w.tasks|
      && (forall i :: 0 <= i < |w.tasks| ==> w.published[i].step == w.tasks[i].step)
      && (forall p :: Path(Edges(w.spec), p) && |p| >= 2 && Started(w.tasks, p[|p| - 1]) ==> Effected(w.tasks, p[0]))
      && (w.status.Completed? ==> forall n :: n in Names(w.spec) ==> Effected(w.tasks, n))
  {
    WorkflowInvRun(Start(spec), evs);
    var w := After(Start(spec), evs);
    forall p | Path(Edges(w.spec), p) && |p| >= 2 && Started(w.tasks, p[|p| - 1]) ensures Effected(w.tasks, p[0]) {
      AncestorsEffected(w, p);
    }
  }

  /** A workflow that has failed or completed stays so and launches nothing more. */
  lemma {:induction false} EndedIsFinal(w: Workflow, evs: seq<Event>)
    requires w.status != Running && PossibleRun(w, evs)
    ensures After(w, evs).status == w.status
    ensures |After(w, evs).tasks| == |w.tasks| && After(w, evs).published == w.published
    decreases evs
  {
    if evs != [] { EndedIsFinal(Happen(w, evs[0]), evs[1..]); }
  }

  /** What advance decides for a running workflow: it fails exactly if some task is dead, and
      otherwise completes exactly if every step has succeeded; neither decision launches anything. */
  lemma AdvanceVerdict(w: Workflow)
    requires WorkflowInv(w) && w.status == Running
    ensures Advance(w).status == FailedStatus <==> exists i :: 0 <= i < |w.tasks| && w.tasks[i].state.Dead?
    ensures Advance(w).status == Completed <==>
      && (forall i :: 0 <= i < |w.tasks| ==> !w.tasks[i].state.Dead?)
      && (forall n :: n in Names(w.spec) ==>
            exists i :: 0 <= i < |w.tasks| && w.tasks[i].step == n && w.tasks[i].state.Succeeded?)
    ensures Advance(w).status != Running ==> Advance(w).tasks == w.tasks && Advance(w).published == w.published
  {
    StatesMeanTasks(w, Dead);
    StatesMeanTasks(w, Succeeded);
    var dead := StepsIn(StepStates(w.tasks), Dead);
    if i :| 0 <= i < |w.tasks| && w.tasks[i].state.Dead? {
      assert w.tasks[i].step in dead;
    } else {
      assert dead == {};
    }
  }

  lemma StatesMeanTasks(w: Workflow, state: TaskState)
    requires WorkflowInv(w)
    ensures forall n :: n in StepsIn(StepStates(w.tasks), state) <==>
      exists i :: 0 <= i < |w.tasks| && w.tasks[i].step == n && w.tasks[i].state == state
  {
    NamesNotEmpty(w);
    StatesAreTasks(w.tasks);
    forall n | n in StepsIn(StepStates(w.tasks), state)
      ensures exists i :: 0 <= i < |w.tasks| && w.tasks[i].step == n && w.tasks[i].state == state
    {
      assert Started(w.tasks, n);
      var i :| 0 <= i < |w.tasks| && w.tasks[i].step == n;
      assert w.tasks[i].state == state;
    }
  }

  // ---- progress ----

  ghost predicate AllSucceeded(w: Workflow) {
    forall i :: 0 <= i < |w.tasks| ==> w.tasks[i].state.Succeeded?
  }

  lemma SucceededIsStarted(w: Workflow, n: string)
    requires WorkflowInv(w) && AllSucceeded(w)
    ensures n in StepsIn(StepStates(w.tasks), Succeeded) <==> Started(w.tasks, n)
    ensures StepsIn(StepStates(w.tasks), Dead) == {}
  {
    NamesNotEmpty(w);
    StatesAreTasks(w.tasks);
    forall m | m in StepStates(w.tasks) ensures StepStates(w.tasks)[m].Succeeded? {
      assert Started(w.tasks, m);
      var i :| 0 <= i < |w.tasks| && w.tasks[i].step == m;
    }
  }

  /** Without a cycle, some unfinished step waits for no unfinished step. */
  lemma SomeStepIsFree(spec: seq<StepSpec>, completed: set<string>) returns (x: StepSpec)
    requires Acyclic(Edges(spec)) && Closed(spec) && !(Names(spec) <= completed)
    ensures x in spec && IsReady(x, completed)
  {
    var es, open := Edges(spec), Names(spec) - completed;
    var m :| m in Names(spec) && m !in completed;
    if Stuck(es, open) {
      StuckMeansTainted(es, open, m);
      assert false;
    }
    var n :| n in open && !HasPredecessor(es, open, n);
    var i :| 0 <= i < |spec| && spec[i].name == n;
    x := spec[i];
    forall d | d in x.dependsOn ensures d in completed {
      EdgesAreDependencies(spec, d, n);
      assert (d, n) in es;
      assert (d, n).0 in Names(spec);
    }
  }

  /** Progress: if everything launched has succeeded and something is still missing, advance
      launches at least one step. */
  lemma AdvanceLaunches(w: Workflow)
    requires WorkflowInv(w) && w.status == Running && AllSucceeded(w)
    requires Acyclic(Edges(w.spec)) && Closed(w.spec)
    requires exists n :: n in Names(w.spec) && !Started(w.tasks, n)
    ensures |Advance(w).tasks| > |w.tasks| && |Advance(w).published| > |w.published|
  {
    var completed := StepsIn(StepStates(w.tasks), Succeeded);
    var n :| n in Names(w.spec) && !Started(w.tasks, n);
    SucceededIsStarted(w, n);
    var x := SomeStepIsFree(w.spec, completed);
    SucceededIsStarted(w, x.name);
    LaunchExact(w);
    assert x in Launch(w);
  }

  /** A step whose effect is in but whose task row has been overwritten is never seen to succeed, so
      the workflow never completes. */
  lemma {:induction false} GivenUpNeverCompletes(w: Workflow, evs: seq<Event>, i: nat)
    requires WorkflowInv(w) && PossibleRun(w, evs) && w.status != Completed
    requires i < |w.tasks| && w.tasks[i].effect && !w.tasks[i].state.Succeeded?
    ensures var w' := After(w, evs);
      w'.status != Completed && i < |w'.tasks| && w'.tasks[i].effect && !w'.tasks[i].state.Succeeded?
    decreases evs
  {
    if evs != [] {
      var w' := Happen(w, evs[0]);
      if evs[0].Advanced? {
        AdvanceInv(w);
        if w.status == Running { AdvanceVerdict(w); }
        assert w'.tasks[i] == w.tasks[i];
      } else {
        ChangeInv(w, evs[0].tasks);
        assert Allowed(w.tasks[i], w'.tasks[i]);
      }
      GivenUpNeverCompletes(w', evs[1..], i);
    }
  }
}
