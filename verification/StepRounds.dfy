/** Runs by rounds: advance is called, and then the tasks of a chosen set of steps succeed while all
    others stay pending.  Whatever the chosen steps let start does start. */
module StepRounds {
  import opened Store
  import opened Graphs
  import opened Dag
  import opened Workflows
  import opened WorkflowRuns
  import opened WorkflowRounds

  function Finish(tasks: seq<StepTask>, chosen: set<string>): (ts: seq<StepTask>)
    ensures |ts| == |tasks|
    ensures forall i :: 0 <= i < |ts| ==>
      ts[i] == if tasks[i].step in chosen then StepTask(tasks[i].step, Succeeded, true) else tasks[i]
  {
    seq(|tasks|, i requires 0 <= i < |tasks| =>
      if tasks[i].step in chosen then StepTask(tasks[i].step, Succeeded, true) else tasks[i])
  }

  function Round(w: Workflow, chosen: set<string>): Workflow {
    Advance(w).(tasks := Finish(Advance(w).tasks, chosen))
  }

  function Rounds(spec: seq<StepSpec>, k: nat, chosen: set<string>): Workflow {
    if k == 0 then Start(spec) else Round(Rounds(spec, k - 1, chosen), chosen)
  }

  /** A task of a chosen step has succeeded; any other is pending. */
  predicate Told(t: StepTask, chosen: set<string>) {
    if t.step in chosen then t.state.Succeeded? && t.effect else t.state.Pending? && !t.effect
  }

  ghost predicate AllTold(w: Workflow, chosen: set<string>) {
    forall i :: 0 <= i < |w.tasks| ==> Told(w.tasks[i], chosen)
  }

  lemma {:induction false} StatesWhenTold(tasks: seq<StepTask>, chosen: set<string>, n: string)
    requires forall i :: 0 <= i < |tasks| ==> Told(tasks[i], chosen)
    ensures n in StepStates(tasks) <==> n != "" && Started(tasks, n)
    ensures n in StepStates(tasks) ==> StepStates(tasks)[n] == if n in chosen then Succeeded else Pending
  {
    if tasks != [] {
      StatesWhenTold(tasks[..|tasks| - 1], chosen, n);
      StartedLast(tasks, n);
    }
  }

  function Done(w: Workflow): set<string> {
    StepsIn(StepStates(w.tasks), Succeeded)
  }

  lemma SetsWhenTold(w: Workflow, chosen: set<string>)
    requires AllTold(w, chosen)
    ensures forall n :: n in Done(w) <==> n != "" && Started(w.tasks, n) && n in chosen
    ensures forall n :: n in StepStates(w.tasks) <==> n != "" && Started(w.tasks, n)
    ensures StepsIn(StepStates(w.tasks), Dead) == {}
  {
    forall n ensures n in StepStates(w.tasks) <==> n != "" && Started(w.tasks, n)
             ensures n in StepStates(w.tasks) ==> StepStates(w.tasks)[n] == if n in chosen then Succeeded else Pending
    {
      StatesWhenTold(w.tasks, chosen, n);
    }
  }

  /** Which steps an advance launches between two rounds. */
  lemma LaunchWhenTold(w: Workflow, chosen: set<string>, x: StepSpec)
    requires AllTold(w, chosen)
    ensures x in Launch(w) <==>
      x in w.spec && (x.name == "" || !Started(w.tasks, x.name)) && forall d :: d in x.dependsOn ==> d in Done(w)
  {
    SetsWhenTold(w, chosen);
    ReadyStepsExact(w.spec, Done(w));
    ToLaunchExact(ReadySteps(w.spec, Done(w)), StepStates(w.tasks));
  }

  /** What a chain of rounds keeps: it never fails, and it completes only with every step done. */
  ghost predicate Going(w: Workflow, spec: seq<StepSpec>, chosen: set<string>) {
    && w.spec == spec && AllTold(w, chosen) && w.status != FailedStatus
    && (w.status == Completed ==> Names(spec) <= Done(w))
  }

  lemma FinishTells(w: Workflow, chosen: set<string>)
    requires forall i :: 0 <= i < |w.tasks| ==>
      Told(w.tasks[i], chosen) || w.tasks[i] == StepTask(w.tasks[i].step, Pending, false)
    ensures AllTold(w.(tasks := Finish(w.tasks, chosen)), chosen)
    ensures Possible(w, Changed(Finish(w.tasks, chosen)))
  {
  }

  lemma FinishAgain(w: Workflow, chosen: set<string>)
    requires AllTold(w, chosen)
    ensures Finish(w.tasks, chosen) == w.tasks
  {
  }

  lemma RoundGoes(w: Workflow, spec: seq<StepSpec>, chosen: set<string>)
    requires Going(w, spec, chosen)
    ensures Going(Round(w, chosen), spec, chosen)
    ensures Possible(Advance(w), Changed(Finish(Advance(w).tasks, chosen)))
  {
    SetsWhenTold(w, chosen);
    FinishTells(Advance(w), chosen);
    if Advance(w).status == Completed {
      assert Advance(w).tasks == w.tasks;
      FinishAgain(w, chosen);
    }
  }

  lemma {:induction false} RoundsGo(spec: seq<StepSpec>, k: nat, chosen: set<string>)
    ensures Going(Rounds(spec, k, chosen), spec, chosen)
  {
    if k > 0 {
      RoundsGo(spec, k - 1, chosen);
      RoundGoes(Rounds(spec, k - 1, chosen), spec, chosen);
    }
  }

  lemma {:induction false} RunThen(w: Workflow, evs: seq<Event>, ev: Event)
    requires PossibleRun(w, evs) && Possible(After(w, evs), ev)
    ensures PossibleRun(w, evs + [ev]) && After(w, evs + [ev]) == Happen(After(w, evs), ev)
    decreases evs
  {
    if evs == [] {
      assert evs + [ev] == [ev] && [ev][1..] == [];
    } else {
      assert (evs + [ev])[1..] == evs[1..] + [ev];
      RunThen(Happen(w, evs[0]), evs[1..], ev);
    }
  }

  /** Rounds are runs. */
  lemma {:induction false} RoundsAreRuns(spec: seq<StepSpec>, k: nat, chosen: set<string>) returns (evs: seq<Event>)
    ensures PossibleRun(Start(spec), evs) && After(Start(spec), evs) == Rounds(spec, k, chosen)
  {
    evs := [];
    if k > 0 {
      var before := RoundsAreRuns(spec, k - 1, chosen);
      RoundsGo(spec, k - 1, chosen);
      RoundGoes(Rounds(spec, k - 1, chosen), spec, chosen);
      RunThen(Start(spec), before, Advanced);
      var w := Advance(Rounds(spec, k - 1, chosen));
      RunThen(Start(spec), before + [Advanced], Changed(Finish(w.tasks, chosen)));
      evs := before + [Advanced] + [Changed(Finish(w.tasks, chosen))];
    }
  }

  lemma StartedAfterFinish(tasks: seq<StepTask>, chosen: set<string>, n: string)
    ensures Started(Finish(tasks, chosen), n) <==> Started(tasks, n)
  {
    StartedAlike(tasks, Finish(tasks, chosen), n);
  }

  // ---- what a step without a task waits for ----

  /** Whatever a member of the set waits for is a step in the set, is chosen, and has a name. */
  ghost predicate Grounded(spec: seq<StepSpec>, within: set<string>, chosen: set<string>) {
    forall e :: e in Edges(spec) && e.1 in within ==>
      e.0 in Names(spec) && e.0 in within && e.0 in chosen && e.0 != ""
  }

  /** What keeps a step from being launched is a dependency not yet started. */
  lemma WaitsFor(w: Workflow, chosen: set<string>, n: string, within: set<string>) returns (d: string)
    requires Going(w, w.spec, chosen) && Grounded(w.spec, within, chosen) && n in within && n in Names(w.spec)
    requires w.status == Running && Advance(w).status == Running && !Started(Advance(w).tasks, n)
    ensures (d, n) in Edges(w.spec) && d in within && d in Names(w.spec) && !Started(w.tasks, d)
  {
    SetsWhenTold(w, chosen);
    var i :| 0 <= i < |w.spec| && w.spec[i].name == n;
    var x := w.spec[i];
    if Started(w.tasks, n) { StartedGrows(w.tasks, NewTasks(Launch(w)), n); }
    if x in Launch(w) { StartedByLaunch(w.tasks, Launch(w), x); }
    LaunchWhenTold(w, chosen, x);
    d :| d in x.dependsOn && d !in Done(w);
    EdgesAreDependencies(w.spec, d, n);
    assert (d, n).1 in within;
  }

  /** A step that a running workflow has not started. */
  ghost predicate Idle(w: Workflow, n: string) {
    n in Names(w.spec) && w.status == Running && !Started(w.tasks, n)
  }

  /** Whatever is idle after a round waits for something that was idle before. */
  lemma RoundWaits(w: Workflow, chosen: set<string>, n: string, within: set<string>) returns (d: string)
    requires Going(w, w.spec, chosen) && Grounded(w.spec, within, chosen) && n in within && Idle(Round(w, chosen), n)
    ensures (d, n) in Edges(w.spec) && d in within && Idle(w, d)
  {
    StartedAfterFinish(Advance(w).tasks, chosen, n);
    d := WaitsFor(w, chosen, n, within);
  }

  lemma NextWaits(spec: seq<StepSpec>, k: nat, chosen: set<string>, n: string, within: set<string>) returns (d: string)
    requires k > 0 && Grounded(spec, within, chosen) && n in within && Idle(Rounds(spec, k, chosen), n)
    ensures (d, n) in Edges(spec) && d in within && Idle(Rounds(spec, k - 1, chosen), d)
  {
    RoundsGo(spec, k - 1, chosen);
    d := RoundWaits(Rounds(spec, k - 1, chosen), chosen, n, within);
  }

  /** A step idle after k rounds ends a chain of k + 1 steps. */
  lemma {:induction false} IdleHasChain(
    spec: seq<StepSpec>, k: nat, chosen: set<string>, n: string, within: set<string>)
    requires Grounded(spec, within, chosen) && n in within && Idle(Rounds(spec, k, chosen), n)
    ensures ChainTo(Edges(spec), n, k + 1)
  {
    if k == 0 {
      SingleChain(Edges(spec), n);
    } else {
      var d := NextWaits(spec, k, chosen, n, within);
      IdleHasChain(spec, k - 1, chosen, d, within);
      ExtendChain(Edges(spec), d, n, k);
    }
  }

  /** After one round per name every step of a grounded set has been started. */
  lemma AllStarted(spec: seq<StepSpec>, k: nat, chosen: set<string>, n: string, within: set<string>)
    requires Closed(spec) && Acyclic(Edges(spec)) && Grounded(spec, within, chosen)
    requires n in within && n in Names(spec) && k >= |Names(spec)|
    ensures Started(Rounds(spec, k, chosen).tasks, n)
  {
    var w := Rounds(spec, k, chosen);
    RoundsGo(spec, k, chosen);
    SetsWhenTold(w, chosen);
    if !Started(w.tasks, n) {
      IdleHasChain(spec, k, chosen, n, within);
      var p :| Path(Edges(spec), p) && |p| == k + 1 && p[|p| - 1] == n;
      SubsetSize({n}, Names(spec));
      PathStaysInSpec(spec, p);
      AcyclicChainsAreShort(Edges(spec), Names(spec), p);
    }
  }
}
