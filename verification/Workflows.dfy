/** The workflow engine: submit and advance for specs without fan_out (dtq/workflow/engine.py). */
module Workflows {
  import opened Store
  import opened Graphs
  import opened Dag

  datatype Status = Running | Completed | FailedStatus

  /** The task row of one step, with whether its effect row exists. */
  datatype StepTask = StepTask(step: string, state: TaskState, effect: bool)

  /** What advance publishes for a launched step. */
  datatype Message = Message(step: string, task: string, payload: string, maxAttempts: int)

  datatype Workflow = Workflow(
    spec: seq<StepSpec>,
    status: Status,
    tasks: seq<StepTask>,
    published: seq<Message>)

  function Start(spec: seq<StepSpec>): Workflow {
    Workflow(spec, Running, [], [])
  }

  /** step_states: the last task of a step wins, and an empty step name is skipped. */
  function StepStates(tasks: seq<StepTask>): map<string, TaskState> {
    if tasks == [] then map[]
    else
      var last := tasks[|tasks| - 1];
      var before := StepStates(tasks[..|tasks| - 1]);
      if last.step != "" then before[last.step := last.state] else before
  }

  function StepsIn(states: map<string, TaskState>, state: TaskState): set<string> {
    set n | n in states && states[n] == state
  }

  /** The ready steps that have no task yet. */
  function ToLaunch(ready: seq<StepSpec>, states: map<string, TaskState>): seq<StepSpec> {
    if ready == [] then []
    else ToLaunch(ready[..|ready| - 1], states) +
         (if ready[|ready| - 1].name in states then [] else [ready[|ready| - 1]])
  }

  function NewTasks(steps: seq<StepSpec>): (ts: seq<StepTask>)
    ensures |ts| == |steps|
    ensures forall i :: 0 <= i < |ts| ==> ts[i] == StepTask(steps[i].name, Pending, false)
  {
    seq(|steps|, i requires 0 <= i < |steps| => StepTask(steps[i].name, Pending, false))
  }

  function NewMessages(steps: seq<StepSpec>): (ms: seq<Message>)
    ensures |ms| == |steps|
    ensures forall i :: 0 <= i < |ms| ==>
      ms[i] == Message(steps[i].name, steps[i].task, steps[i].payload, steps[i].maxAttempts)
  {
    seq(|steps|, i requires 0 <= i < |steps| =>
      Message(steps[i].name, steps[i].task, steps[i].payload, steps[i].maxAttempts))
  }

  function Launch(w: Workflow): seq<StepSpec> {
    var states := StepStates(w.tasks);
    ToLaunch(ReadySteps(w.spec, StepsIn(states, Succeeded)), states)
  }

  function Advance(w: Workflow): Workflow {
    var states := StepStates(w.tasks);
    if w.status != Running then w
    else if StepsIn(states, Dead) != {} then w.(status := FailedStatus)
    else if Names(w.spec) <= StepsIn(states, Succeeded) then w.(status := Completed)
    else w.(tasks := w.tasks + NewTasks(Launch(w)), published := w.published + NewMessages(Launch(w)))
  }

  class WorkflowEngine {
    var wf: Workflow

    constructor ()
      ensures wf == Start([])
    {
      wf := Start([]);
    }

    method ReadStates() returns (states: map<string, TaskState>)
      ensures states == StepStates(wf.tasks)
    {
      states := map[];
      for i := 0 to |wf.tasks|
        invariant states == StepStates(wf.tasks[..i])
      {
        assert wf.tasks[..i + 1][..i] == wf.tasks[..i];
        if wf.tasks[i].step != "" {
          states := states[wf.tasks[i].step := wf.tasks[i].state];
        }
      }
      assert wf.tasks[..|wf.tasks|] == wf.tasks;
    }

    /** The launch loop: a task row and a published envelope per ready step without a task. */
    method LaunchReady(ready: seq<StepSpec>, states: map<string, TaskState>)
      modifies this
      ensures var steps := ToLaunch(ready, states);
        wf == old(wf).(tasks := old(wf).tasks + NewTasks(steps), published := old(wf).published + NewMessages(steps))
    {
      ghost var before := wf;
      assert NewTasks([]) == [] && NewMessages([]) == [];
      for i := 0 to |ready|
        invariant wf.spec == before.spec && wf.status == before.status
        invariant wf.tasks == before.tasks + NewTasks(ToLaunch(ready[..i], states))
        invariant wf.published == before.published + NewMessages(ToLaunch(ready[..i], states))
      {
        LaunchNext(ready, i, states);
        var step := ready[i];
        if step.name in states {
          continue;
        }
        wf := wf.(
          tasks := wf.tasks + [StepTask(step.name, Pending, false)],
          published := wf.published + [Message(step.name, step.task, step.payload, step.maxAttempts)]);
      }
      assert ready[..|ready|] == ready;
    }

    /** advance: read the task rows, decide, launch. */
    method AdvanceWorkflow()
      modifies this
      ensures wf == Advance(old(wf))
    {
      if wf.status != Running {
        return;
      }
      var states := ReadStates();
      var completed := StepsIn(states, Succeeded);
      if StepsIn(states, Dead) != {} {
        wf := wf.(status := FailedStatus);
        return;
      }
      if Names(wf.spec) <= completed {
        wf := wf.(status := Completed);
        return;
      }
      var ready := GetReadySteps(wf.spec, completed);
      LaunchReady(ready, states);
    }

    /** submit: a spec that does not validate leaves nothing behind; a valid one is started. */
    method Submit(spec: seq<StepSpec>) returns (verdict: Validation)
      modifies this
      ensures verdict.Valid? <==>
        Acyclic(Edges(spec)) && !exists i: nat, d :: UnknownDependency(spec, i, d)
      ensures wf == if verdict.Valid? then Advance(Start(spec)) else old(wf)
    {
      verdict := ValidateDag(spec);
      if verdict.Valid? {
        wf := Start(spec);
        AdvanceWorkflow();
      }
    }
  }

  lemma LaunchNext(ready: seq<StepSpec>, i: nat, states: map<string, TaskState>)
    requires i < |ready|
    ensures var xs, ys := ToLaunch(ready[..i], states), ToLaunch(ready[..i + 1], states);
      && ys == (if ready[i].name in states then xs else xs + [ready[i]])
      && NewTasks(xs + [ready[i]]) == NewTasks(xs) + [StepTask(ready[i].name, Pending, false)]
      && NewMessages(xs + [ready[i]]) == NewMessages(xs) +
           [Message(ready[i].name, ready[i].task, ready[i].payload, ready[i].maxAttempts)]
  {
    assert ready[..i + 1][..i] == ready[..i];
  }
}
