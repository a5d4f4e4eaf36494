/** Progress of a workflow: when every call of advance finds that everything launched before has
    succeeded, one call per step of the longest chain of dependencies, and one more, completes it.
    Between the calls the workers do what they like. */
module WorkflowRounds {
  import opened Store
  import opened Graphs
  import opened Dag
  import opened Workflows
  import opened WorkflowRuns

  /** Every call of advance comes when all launched tasks have succeeded. */
  ghost predicate Timely(w: Workflow, evs: seq<Event>)
    requires PossibleRun(w, evs)
    decreases evs
  {
    evs == [] || ((evs[0].Advanced? ==> AllSucceeded(w)) && Timely(Happen(w, evs[0]), evs[1..]))
  }

  function AdvanceCount(evs: seq<Event>): nat {
    if evs == [] then 0 else (if evs[0].Advanced? then 1 else 0) + AdvanceCount(evs[1..])
  }

  lemma StartedGrows(tasks: seq<StepTask>, more: seq<StepTask>, n: string)
    requires Started(tasks, n)
    ensures Started(tasks + more, n)
  {
    var i :| 0 <= i < |tasks| && tasks[i].step == n;
    assert (tasks + more)[i] == tasks[i];
  }

  lemma StartedByLaunch(tasks: seq<StepTask>, xs: seq<StepSpec>, x: StepSpec)
    requires x in xs
    ensures Started(tasks + NewTasks(xs), x.name)
  {
    var i :| 0 <= i < |xs| && xs[i] == x;
    assert (tasks + NewTasks(xs))[|tasks| + i].step == x.name;
  }

  /** Some chain of this many steps ends at n. */
  ghost predicate ChainTo(es: seq<Edge>, n: string, length: nat) {
    exists p :: Path(es, p) && |p| == length && p[|p| - 1] == n
  }

  /** No chain of dependencies has more steps than this. */
  ghost predicate NoLongerChain(spec: seq<StepSpec>, longest: nat) {
    forall p :: Path(Edges(spec), p) ==> |p| <= longest
  }

  lemma SingleChain(es: seq<Edge>, n: string)
    ensures ChainTo(es, n, 1)
  {
    assert Path(es, [n]) && [n][|[n]| - 1] == n;
  }

  lemma ExtendChain(es: seq<Edge>, d: string, n: string, length: nat)
    requires ChainTo(es, d, length) && (d, n) in es
    ensures ChainTo(es, n, length + 1)
  {
    var q :| Path(es, q) && |q| == length && q[|q| - 1] == d;
    var p := q + [n];
    assert Path(es, p) && p[|p| - 1] == n;
  }

  lemma PathStaysInSpec(spec: seq<StepSpec>, p: seq<string>)
    requires Closed(spec) && Path(Edges(spec), p) && |p| >= 2
    ensures forall i :: 0 <= i < |p| ==> p[i] in Names(spec)
  {
    forall i | 0 <= i < |p| ensures p[i] in Names(spec) {
      if i < |p| - 1 {
        assert (p[i], p[i + 1]) in Edges(spec);
        assert (p[i], p[i + 1]).0 in Names(spec);
      } else {
        assert (p[i - 1], p[i - 1 + 1]) in Edges(spec);
        EdgesAreDependencies(spec, p[i - 1], p[i]);
      }
    }
  }

  lemma KnownMeansClosed(spec: seq<StepSpec>)
    requires !exists i: nat, d :: UnknownDependency(spec, i, d)
    ensures Closed(spec)
  {
    forall e | e in Edges(spec) ensures e.0 in Names(spec) {
      EdgesAreDependencies(spec, e.0, e.1);
      assert e == (e.0, e.1);
      var i :| 0 <= i < |spec| && spec[i].name == e.1 && e.0 in spec[i].dependsOn;
      assert !UnknownDependency(spec, i, e.0);
    }
  }

  /** A step that advance passes over has a dependency that was not there yet. */
  lemma PassedOver(w: Workflow, n: string) returns (d: string)
    requires WorkflowInv(w) && AllSucceeded(w) && Closed(w.spec)
    requires n in Names(w.spec) && !Started(w.tasks + NewTasks(Launch(w)), n)
    ensures (d, n) in Edges(w.spec) && d in Names(w.spec) && !Started(w.tasks, d)
  {
    var completed := StepsIn(StepStates(w.tasks), Succeeded);
    var i :| 0 <= i < |w.spec| && w.spec[i].name == n;
    var x := w.spec[i];
    if Started(w.tasks, n) { StartedGrows(w.tasks, NewTasks(Launch(w)), n); }
    SucceededIsStarted(w, n);
    LaunchExact(w);
    if x in Launch(w) { StartedByLaunch(w.tasks, Launch(w), x); }
    assert !IsReady(x, completed);
    d :| d in x.dependsOn && d !in completed;
    EdgesAreDependencies(w.spec, d, n);
    assert (d, n).0 in Names(w.spec);
    SucceededIsStarted(w, d);
  }

  /** Whatever has no task after c calls ends a chain of c + 1 steps. */
  ghost predicate Chained(w: Workflow, c: nat) {
    forall n :: n in Names(w.spec) && !Started(w.tasks, n) ==> ChainTo(Edges(w.spec), n, c + 1)
  }

  /** After c calls the workflow is completed, or it runs with c chained calls behind it. */
  ghost predicate Underway(w: Workflow, spec: seq<StepSpec>, c: nat, longest: nat) {
    && w.spec == spec && WorkflowInv(w) && Closed(spec)
    && (w.status == Completed || (w.status == Running && c <= longest && Chained(w, c)))
  }

  lemma LaunchChains(w: Workflow, w': Workflow, c: nat)
    requires WorkflowInv(w) && AllSucceeded(w) && Closed(w.spec) && Chained(w, c)
    requires w'.spec == w.spec && w'.tasks == w.tasks + NewTasks(Launch(w))
    ensures Chained(w', c + 1)
  {
    forall n | n in Names(w.spec) && !Started(w'.tasks, n) ensures ChainTo(Edges(w.spec), n, c + 2) {
      var d := PassedOver(w, n);
      ExtendChain(Edges(w.spec), d, n, c + 1);
    }
  }

  lemma NothingUnstarted(w: Workflow, c: nat, longest: nat)
    requires Chained(w, c) && c >= longest && NoLongerChain(w.spec, longest)
    ensures forall n :: n in Names(w.spec) ==> Started(w.tasks, n)
  {
  }

  lemma AdvanceOnTime(w: Workflow, spec: seq<StepSpec>, c: nat, longest: nat)
    requires Underway(w, spec, c, longest) && AllSucceeded(w) && NoLongerChain(spec, longest)
    ensures Underway(Advance(w), spec, c + 1, longest)
  {
    AdvanceInv(w);
    if w.status == Running {
      SucceededIsStarted(w, "");
      if c >= longest {
        NothingUnstarted(w, c, longest);
        forall n | n in Names(w.spec) ensures n in StepsIn(StepStates(w.tasks), Succeeded) { SucceededIsStarted(w, n); }
      } else if Advance(w).status == Running {
        LaunchChains(w, Advance(w), c);
      }
    }
  }

  lemma ChangeKeepsChains(w: Workflow, tasks: seq<StepTask>, c: nat)
    requires Possible(w, Changed(tasks)) && Chained(w, c)
    ensures Chained(w.(tasks := tasks), c)
  {
    forall n | n in Names(w.spec) && !Started(tasks, n) ensures ChainTo(Edges(w.spec), n, c + 1) {
      StartedAlike(w.tasks, tasks, n);
    }
  }

  lemma StartedAlike(tasks: seq<StepTask>, tasks': seq<StepTask>, n: string)
    requires |tasks'| == |tasks| && forall i :: 0 <= i < |tasks| ==> tasks'[i].step == tasks[i].step
    ensures Started(tasks', n) <==> Started(tasks, n)
  {
    if Started(tasks, n) {
      var i :| 0 <= i < |tasks| && tasks[i].step == n;
      assert tasks'[i].step == n;
    }
    if Started(tasks', n) {
      var i :| 0 <= i < |tasks| && tasks'[i].step == n;
      assert tasks[i].step == n;
    }
  }

  lemma EventOnTime(w: Workflow, spec: seq<StepSpec>, ev: Event, c: nat, longest: nat)
    requires Underway(w, spec, c, longest) && NoLongerChain(spec, longest)
    requires Possible(w, ev) && (ev.Advanced? ==> AllSucceeded(w))
    ensures Underway(Happen(w, ev), spec, if ev.Advanced? then c + 1 else c, longest)
  {
    if ev.Advanced? {
      AdvanceOnTime(w, spec, c, longest);
    } else {
      ChangeInv(w, ev.tasks);
      if w.status == Running { ChangeKeepsChains(w, ev.tasks, c); }
    }
  }

  lemma {:induction false} UnderwayRun(w: Workflow, spec: seq<StepSpec>, evs: seq<Event>, c: nat, longest: nat)
    requires Underway(w, spec, c, longest) && NoLongerChain(spec, longest) && PossibleRun(w, evs) && Timely(w, evs)
    ensures Underway(After(w, evs), spec, c + AdvanceCount(evs), longest)
    decreases evs
  {
    if evs != [] {
      EventOnTime(w, spec, evs[0], c, longest);
      UnderwayRun(Happen(w, evs[0]), spec, evs[1..], if evs[0].Advanced? then c + 1 else c, longest);
    }
  }

  lemma StartUnderway(spec: seq<StepSpec>, longest: nat)
    requires WellNamed(spec) && Closed(spec)
    ensures Underway(Start(spec), spec, 0, longest)
  {
    forall n | n in Names(spec) ensures ChainTo(Edges(spec), n, 1) { SingleChain(Edges(spec), n); }
  }

  /** If no chain of dependencies has more than `longest` steps, then in any run in which every call of
      advance comes when all launched tasks have succeeded, the (longest + 1)-th call completes the
      workflow, for good. */
  lemma CompletesAfterLongestChain(spec: seq<StepSpec>, evs: seq<Event>, longest: nat)
    requires WellNamed(spec) && Closed(spec)
    requires PossibleRun(Start(spec), evs) && Timely(Start(spec), evs)
    requires NoLongerChain(spec, longest)
    requires AdvanceCount(evs) > longest
    ensures After(Start(spec), evs).status == Completed
  {
    StartUnderway(spec, longest);
    UnderwayRun(Start(spec), spec, evs, 0, longest);
  }

  lemma ValidatedChainsAreShort(spec: seq<StepSpec>, p: seq<string>)
    requires Acyclic(Edges(spec)) && Closed(spec) && spec != [] && Path(Edges(spec), p)
    ensures |p| <= |Names(spec)|
  {
    if |p| >= 2 {
      PathStaysInSpec(spec, p);
      AcyclicChainsAreShort(Edges(spec), Names(spec), p);
    } else {
      assert spec[0].name in Names(spec);
      SubsetSize({spec[0].name}, Names(spec));
    }
  }

  lemma {:induction false} EmptySpecCompletes(w: Workflow, evs: seq<Event>)
    requires w.spec == [] && w.tasks == [] && w.status != FailedStatus && PossibleRun(w, evs)
    requires w.status == Completed || AdvanceCount(evs) > 0
    ensures After(w, evs).status == Completed
    decreases evs
  {
    if evs != [] {
      assert Names(w.spec) == {} && StepsIn(StepStates([]), Dead) == {};
      EmptySpecCompletes(Happen(w, evs[0]), evs[1..]);
    }
  }

  /** So in such a run a spec that validate_dag accepts, the empty one included, is completed by the call
      that follows one call per step. */
  lemma ValidatedSpecCompletes(spec: seq<StepSpec>, evs: seq<Event>)
    requires WellNamed(spec)
    requires Acyclic(Edges(spec)) && !exists i: nat, d :: UnknownDependency(spec, i, d)
    requires PossibleRun(Start(spec), evs) && Timely(Start(spec), evs) && AdvanceCount(evs) > |Names(spec)|
    ensures After(Start(spec), evs).status == Completed
  {
    if spec == [] {
      EmptySpecCompletes(Start(spec), evs);
    } else {
      KnownMeansClosed(spec);
      forall p | Path(Edges(spec), p) ensures |p| <= |Names(spec)| { ValidatedChainsAreShort(spec, p); }
      CompletesAfterLongestChain(spec, evs, |Names(spec)|);
    }
  }
}
