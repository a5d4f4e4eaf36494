/** A workflow on top of the task protocol.  The task rows that advance reads are rows of the protocol's
    tables, launching a step is submitting and creating a task there, and anything the protocol can do,
    for this workflow's tasks or for others, happens between two calls. */
module QueueRuns {
  import opened Envelopes
  import opened Store
  import opened Graphs
  import opened Dag
  import opened Workflows
  import opened WorkflowRuns
  import opened WorkflowRounds
  import opened Provenance
  import opened Departures
  import opened Zombies
  import P = Protocol
  import E = Effects

  /** The row of a launched step: its name and its task id. */
  datatype Launched = Launched(step: string, id: TaskId)

  datatype System = System(
    queue: P.State,
    spec: seq<StepSpec>,
    status: Status,
    rows: seq<Launched>,
    published: seq<Message>)

  function RowState(q: P.State, id: TaskId): TaskState {
    if id in q.tables.tasks then q.tables.tasks[id].state else Pending
  }

  /** What advance sees: the state in the task row, and whether the task's own effect row is there. */
  function Seen(q: P.State, rows: seq<Launched>): (ts: seq<StepTask>)
    ensures |ts| == |rows|
    ensures forall i :: 0 <= i < |rows| ==>
      ts[i] == StepTask(rows[i].step, RowState(q, rows[i].id), HasOwnEffect(q, rows[i].id))
  {
    seq(|rows|, i requires 0 <= i < |rows| =>
      StepTask(rows[i].step, RowState(q, rows[i].id), HasOwnEffect(q, rows[i].id)))
  }

  function View(y: System): Workflow {
    Workflow(y.spec, y.status, Seen(y.queue, y.rows), y.published)
  }

  /** A step's envelope: default queue, no dedup key, the default policy but for max_attempts. */
  function StepEnvelope(x: StepSpec, id: TaskId): Envelope {
    Envelope(id, "default", x.task, x.payload, 0, None, RetryPolicy(1.0, 300.0, x.maxAttempts, [], []))
  }

  function LaunchOne(x: StepSpec, id: TaskId): seq<P.Step> {
    [P.Submit(StepEnvelope(x, id), false), P.CreateRow(id, TaskRow("default", None, Pending, 0))]
  }

  function LaunchSteps(xs: seq<StepSpec>, ids: seq<TaskId>): seq<P.Step>
    requires |ids| == |xs|
  {
    if xs == [] then []
    else LaunchSteps(xs[..|xs| - 1], ids[..|xs| - 1]) + LaunchOne(xs[|xs| - 1], ids[|xs| - 1])
  }

  function NewRows(xs: seq<StepSpec>, ids: seq<TaskId>): seq<Launched>
    requires |ids| == |xs|
  {
    seq(|xs|, i requires 0 <= i < |xs| => Launched(xs[i].name, ids[i]))
  }

  /** The steps a call of advance launches; none when it only decides. */
  function ToStart(w: Workflow): seq<StepSpec> {
    var states := StepStates(w.tasks);
    if w.status != Running || StepsIn(states, Dead) != {} || Names(w.spec) <= StepsIn(states, Succeeded)
    then [] else Launch(w)
  }

  datatype Happening = InQueue(step: P.Step) | Call(ids: seq<TaskId>)

  /** Fresh ids are what the submissions and row creations of a call need. */
  predicate CanHappen(y: System, h: Happening) {
    match h
    case InQueue(step) => P.Enabled(y.queue, step)
    case Call(ids) =>
      |ids| == |ToStart(View(y))| && P.ValidRun(y.queue, LaunchSteps(ToStart(View(y)), ids))
  }

  function NextSystem(y: System, h: Happening): System
    requires CanHappen(y, h)
  {
    match h
    case InQueue(step) => y.(queue := P.Next(y.queue, step))
    case Call(ids) =>
      var xs := ToStart(View(y));
      y.(queue := P.Run(y.queue, LaunchSteps(xs, ids)),
         status := Advance(View(y)).status,
         rows := y.rows + NewRows(xs, ids),
         published := y.published + NewMessages(xs))
  }

  predicate ValidSystemRun(y: System, hs: seq<Happening>)
    decreases hs
  {
    hs == [] || (CanHappen(y, hs[0]) && ValidSystemRun(NextSystem(y, hs[0]), hs[1..]))
  }

  function SystemRun(y: System, hs: seq<Happening>): System
    requires ValidSystemRun(y, hs)
    decreases hs
  {
    if hs == [] then y else SystemRun(NextSystem(y, hs[0]), hs[1..])
  }

  /** The workflow just submitted to a queue in any reachable state. */
  function Begun(q: P.State, spec: seq<StepSpec>): System {
    System(q, spec, Running, [], [])
  }

  /** Every launched step's task is published and has its row. */
  ghost predicate SystemInv(y: System) {
    && Inv(y.queue)
    && forall i :: 0 <= i < |y.rows| ==> y.rows[i].id in y.queue.published && y.rows[i].id in y.queue.tables.tasks
  }

  // ---- what the protocol does to a task row ----

  lemma RowsExist(q: P.State, step: P.Step, id: TaskId)
    requires P.Enabled(q, step) && id in q.tables.tasks
    ensures id in P.Next(q, step).tables.tasks
  {
    P.NextTables(q, step);
    RowsExistAfter(q, step, id);
  }

  lemma RowsExistAfter(q: P.State, step: P.Step, id: TaskId)
    requires P.Enabled(q, step) && id in q.tables.tasks
    ensures id in P.TablesAfter(q, step).tasks
  {
  }

  lemma OwnEffectStays(q: P.State, step: P.Step, id: TaskId)
    requires Inv(q) && P.Enabled(q, step) && HasOwnEffect(q, id)
    ensures HasOwnEffect(P.Next(q, step), id)
  {
    PublishedKept(q, step);
    E.EffectsOfStep(q, step);
  }

  /** Every step of the protocol changes a task row only as `WorkflowRuns.Allowed` says. */
  lemma ProtocolStepAllowed(q: P.State, step: P.Step, name: string, id: TaskId)
    requires Inv(q) && P.Enabled(q, step) && id in q.tables.tasks
    ensures var q' := P.Next(q, step);
      Allowed(StepTask(name, RowState(q, id), HasOwnEffect(q, id)),
              StepTask(name, RowState(q', id), HasOwnEffect(q', id)))
  {
    var q' := P.Next(q, step);
    InvStep(q, step);
    RowsExist(q, step, id);
    if HasOwnEffect(q, id) { OwnEffectStays(q, step, id); }
    if SucceededRow(q', id) { assert HasOwnEffect(q', id); }
    if HasOwnEffect(q, id) && !SucceededRow(q, id) { NotSucceededStays(q, step, id); }
  }

  // ---- launching ----

  /** Launching leaves everybody else's rows alone and gives each id a row in state pending. */
  ghost predicate LaunchedRows(q: P.State, q': P.State, ids: seq<TaskId>) {
    && q'.tables.effects == q.tables.effects
    && (forall t :: t in q.published ==> t in q'.published && q'.published[t] == q.published[t])
    && (forall t :: t in q.tables.tasks ==> t in q'.tables.tasks && q'.tables.tasks[t] == q.tables.tasks[t])
    && (forall i :: 0 <= i < |ids| ==>
          && ids[i] !in q.published && ids[i] !in q.tables.tasks
          && ids[i] in q'.published && ids[i] in q'.tables.tasks
          && q'.tables.tasks[ids[i]] == TaskRow("default", None, Pending, 0))
  }

  /** Each id is published with the envelope of its step. */
  predicate Sent(q: P.State, xs: seq<StepSpec>, ids: seq<TaskId>)
    requires |ids| == |xs|
  {
    forall i :: 0 <= i < |ids| ==> ids[i] in q.published && q.published[ids[i]] == StepEnvelope(xs[i], ids[i])
  }

  lemma {:induction false} RunConcat(q: P.State, xs: seq<P.Step>, ys: seq<P.Step>)
    requires P.ValidRun(q, xs + ys)
    ensures P.ValidRun(q, xs) && P.ValidRun(P.Run(q, xs), ys)
    ensures P.Run(q, xs + ys) == P.Run(P.Run(q, xs), ys)
    decreases xs
  {
    if xs == [] {
      assert xs + ys == ys;
    } else {
      assert (xs + ys)[1..] == xs[1..] + ys;
      RunConcat(P.Next(q, xs[0]), xs[1..], ys);
    }
  }

  lemma OneLaunched(q: P.State, x: StepSpec, id: TaskId)
    requires P.ValidRun(q, LaunchOne(x, id))
    ensures LaunchedRows(q, P.Run(q, LaunchOne(x, id)), [id]) && Sent(P.Run(q, LaunchOne(x, id)), [x], [id])
  {
    var steps := LaunchOne(x, id);
    var q1 := P.Next(q, steps[0]);
    assert P.Run(q, steps) == P.Run(q1, steps[1..]);
    assert steps[1..][0] == steps[1] && steps[1..][1..] == [];
    assert P.Run(q1, steps[1..]) == P.Run(P.Next(q1, steps[1]), []);
  }

  lemma LaunchedRowsCompose(q: P.State, q1: P.State, q2: P.State, ids: seq<TaskId>, id: TaskId)
    requires LaunchedRows(q, q1, ids) && LaunchedRows(q1, q2, [id])
    ensures LaunchedRows(q, q2, ids + [id])
  {
    assert [id][0] == id;
    var all := ids + [id];
    forall i | 0 <= i < |all|
      ensures all[i] !in q.published && all[i] !in q.tables.tasks
      ensures all[i] in q2.published && all[i] in q2.tables.tasks
      ensures q2.tables.tasks[all[i]] == TaskRow("default", None, Pending, 0)
    {
      if i < |ids| { assert all[i] == ids[i]; }
    }
  }

  lemma SentCompose(q1: P.State, q2: P.State, xs: seq<StepSpec>, ids: seq<TaskId>)
    requires |ids| == |xs| > 0
    requires var last := |xs| - 1;
      Sent(q1, xs[..last], ids[..last]) && LaunchedRows(q1, q2, [ids[last]]) && Sent(q2, [xs[last]], [ids[last]])
    ensures Sent(q2, xs, ids)
  {
    var last := |xs| - 1;
    assert [ids[last]][0] == ids[last] && [xs[last]][0] == xs[last];
    forall i | 0 <= i < |ids| ensures ids[i] in q2.published && q2.published[ids[i]] == StepEnvelope(xs[i], ids[i]) {
      if i < last { assert ids[..last][i] == ids[i] && xs[..last][i] == xs[i]; }
    }
  }

  lemma {:induction false} LaunchRows(q: P.State, xs: seq<StepSpec>, ids: seq<TaskId>)
    requires |ids| == |xs| && P.ValidRun(q, LaunchSteps(xs, ids))
    ensures LaunchedRows(q, P.Run(q, LaunchSteps(xs, ids)), ids) && Sent(P.Run(q, LaunchSteps(xs, ids)), xs, ids)
  {
    if xs != [] {
      var last := |xs| - 1;
      var before := LaunchSteps(xs[..last], ids[..last]);
      RunConcat(q, before, LaunchOne(xs[last], ids[last]));
      LaunchRows(q, xs[..last], ids[..last]);
      OneLaunched(P.Run(q, before), xs[last], ids[last]);
      LaunchedRowsCompose(q, P.Run(q, before), P.Run(q, LaunchSteps(xs, ids)), ids[..last], ids[last]);
      SentCompose(P.Run(q, before), P.Run(q, LaunchSteps(xs, ids)), xs, ids);
      assert ids == ids[..last] + [ids[last]];
    }
  }

  lemma UnpublishedHasNoEffect(q: P.State, id: TaskId)
    requires Inv(q) && id !in q.published
    ensures forall key :: key in q.tables.effects ==> q.tables.effects[key].taskId != id
  {
    forall key | key in q.tables.effects ensures q.tables.effects[key].taskId != id {
      assert SoundEffect(q, key, q.tables.effects[key]);
    }
  }

  /** After a launch the old rows look as before and the new ones as advance writes them. */
  lemma SeenAfterLaunch(y: System, q': P.State, xs: seq<StepSpec>, ids: seq<TaskId>)
    requires SystemInv(y) && |ids| == |xs| && LaunchedRows(y.queue, q', ids)
    ensures Seen(q', y.rows + NewRows(xs, ids)) == Seen(y.queue, y.rows) + NewTasks(xs)
  {
    var rows := y.rows + NewRows(xs, ids);
    var expected := Seen(y.queue, y.rows) + NewTasks(xs);
    forall i | 0 <= i < |rows| ensures Seen(q', rows)[i] == expected[i] {
      if i < |y.rows| {
        assert rows[i] == y.rows[i];
      } else {
        assert rows[i] == Launched(xs[i - |y.rows|].name, ids[i - |y.rows|]);
        UnpublishedHasNoEffect(y.queue, ids[i - |y.rows|]);
      }
    }
  }

  // ---- the workflow view is a run of the workflow state machine ----

  lemma QueueStep(y: System, step: P.Step)
    requires SystemInv(y) && P.Enabled(y.queue, step)
    ensures SystemInv(NextSystem(y, InQueue(step)))
    ensures var tasks := Seen(P.Next(y.queue, step), y.rows);
      Possible(View(y), Changed(tasks)) && View(NextSystem(y, InQueue(step))) == Happen(View(y), Changed(tasks))
  {
    InvStep(y.queue, step);
    PublishedKept(y.queue, step);
    forall i | 0 <= i < |y.rows|
      ensures y.rows[i].id in P.Next(y.queue, step).tables.tasks
      ensures Allowed(Seen(y.queue, y.rows)[i], Seen(P.Next(y.queue, step), y.rows)[i])
    {
      RowsExist(y.queue, step, y.rows[i].id);
      ProtocolStepAllowed(y.queue, step, y.rows[i].step, y.rows[i].id);
    }
  }

  lemma AdvanceStarts(w: Workflow)
    ensures Advance(w) == w.(
      status := Advance(w).status, tasks := w.tasks + NewTasks(ToStart(w)),
      published := w.published + NewMessages(ToStart(w)))
  {
    assert NewTasks([]) == [] && NewMessages([]) == [];
    assert w.tasks + [] == w.tasks && w.published + [] == w.published;
  }

  lemma CallStep(y: System, ids: seq<TaskId>)
    requires SystemInv(y) && CanHappen(y, Call(ids))
    ensures SystemInv(NextSystem(y, Call(ids)))
    ensures View(NextSystem(y, Call(ids))) == Happen(View(y), Advanced)
  {
    var xs := ToStart(View(y));
    var q' := P.Run(y.queue, LaunchSteps(xs, ids));
    InvRun(y.queue, LaunchSteps(xs, ids));
    LaunchRows(y.queue, xs, ids);
    SeenAfterLaunch(y, q', xs, ids);
    AdvanceStarts(View(y));
    CallKeepsRows(y, q', xs, ids);
  }

  lemma CallKeepsRows(y: System, q': P.State, xs: seq<StepSpec>, ids: seq<TaskId>)
    requires SystemInv(y) && |ids| == |xs| && LaunchedRows(y.queue, q', ids)
    ensures var rows := y.rows + NewRows(xs, ids);
      forall i :: 0 <= i < |rows| ==> rows[i].id in q'.published && rows[i].id in q'.tables.tasks
  {
    var rows := y.rows + NewRows(xs, ids);
    forall i | 0 <= i < |rows| ensures rows[i].id in q'.published && rows[i].id in q'.tables.tasks {
      if i >= |y.rows| { assert rows[i].id == ids[i - |y.rows|]; }
    }
  }

  /** Every launched step's row says succeeded. */
  ghost predicate RowsSucceeded(y: System) {
    forall i :: 0 <= i < |y.rows| ==> SucceededRow(y.queue, y.rows[i].id)
  }

  /** Every call of advance comes when all rows say succeeded. */
  ghost predicate TimelyCalls(y: System, hs: seq<Happening>)
    requires ValidSystemRun(y, hs)
    decreases hs
  {
    hs == [] || ((hs[0].Call? ==> RowsSucceeded(y)) && TimelyCalls(NextSystem(y, hs[0]), hs[1..]))
  }

  function CallCount(hs: seq<Happening>): nat {
    if hs == [] then 0 else (if hs[0].Call? then 1 else 0) + CallCount(hs[1..])
  }

  /** Every run of the whole system, seen through the task rows, is a run of the workflow machine. */
  lemma {:induction false} RefinesWorkflow(y: System, hs: seq<Happening>) returns (evs: seq<Event>)
    requires SystemInv(y) && ValidSystemRun(y, hs)
    ensures SystemInv(SystemRun(y, hs))
    ensures PossibleRun(View(y), evs) && After(View(y), evs) == View(SystemRun(y, hs))
    ensures AdvanceCount(evs) == CallCount(hs)
    ensures TimelyCalls(y, hs) ==> Timely(View(y), evs)
    decreases hs
  {
    if hs == [] {
      evs := [];
    } else {
      var ev: Event;
      match hs[0] {
        case InQueue(step) =>
          QueueStep(y, step);
          ev := Changed(Seen(P.Next(y.queue, step), y.rows));
        case Call(ids) =>
          CallStep(y, ids);
          ev := Advanced;
      }
      var rest := RefinesWorkflow(NextSystem(y, hs[0]), hs[1..]);
      evs := [ev] + rest;
      assert evs[1..] == rest;
    }
  }

  /** The task of a step has its own row in the effects table. */
  ghost predicate StepEffect(y: System, n: string) {
    exists i :: 0 <= i < |y.rows| && y.rows[i].step == n && HasOwnEffect(y.queue, y.rows[i].id)
  }

  lemma EffectedIsStepEffect(y: System, n: string)
    ensures Effected(View(y).tasks, n) ==> StepEffect(y, n)
  {
    if Effected(View(y).tasks, n) {
      var i :| 0 <= i < |View(y).tasks| && View(y).tasks[i].step == n && View(y).tasks[i].effect;
      assert y.rows[i].step == n;
    }
  }

  lemma StartedRow(y: System, i: nat)
    requires i < |y.rows|
    ensures Started(View(y).tasks, y.rows[i].step)
  {
    assert View(y).tasks[i].step == y.rows[i].step;
  }

  /** Workflow safety over the protocol: whatever the queue does between the calls of advance, a step
      has at most one task, the task of every transitive ancestor of a started step has its own effect
      row, and a completed workflow has the effect row of every step. */
  lemma SafetyOverProtocol(q: P.State, spec: seq<StepSpec>, hs: seq<Happening>)
    requires P.Reachable(q) && WellNamed(spec) && ValidSystemRun(Begun(q, spec), hs)
    ensures var y := SystemRun(Begun(q, spec), hs);
      && (forall i, j :: 0 <= i < j < |y.rows| ==> y.rows[i].step != y.rows[j].step)
      && (forall p, i :: Path(Edges(spec), p) && |p| >= 2 && 0 <= i < |y.rows| && y.rows[i].step == p[|p| - 1] ==>
            StepEffect(y, p[0]))
      && (y.status == Completed ==> forall n :: n in Names(spec) ==> StepEffect(y, n))
  {
    InvReachable(q);
    var y := SystemRun(Begun(q, spec), hs);
    var evs := RefinesWorkflow(Begun(q, spec), hs);
    assert View(Begun(q, spec)) == Start(spec);
    WorkflowSafety(spec, evs);
    SpecStays(Begun(q, spec), hs);
    var w := View(y);
    forall i, j | 0 <= i < j < |y.rows| ensures y.rows[i].step != y.rows[j].step {
      assert w.tasks[i].step != w.tasks[j].step;
    }
    forall p, i | Path(Edges(spec), p) && |p| >= 2 && 0 <= i < |y.rows| && y.rows[i].step == p[|p| - 1]
      ensures StepEffect(y, p[0])
    {
      StartedRow(y, i);
      EffectedIsStepEffect(y, p[0]);
    }
    forall n | n in Names(spec) && y.status == Completed ensures StepEffect(y, n) {
      EffectedIsStepEffect(y, n);
    }
  }

  lemma {:induction false} SpecStays(y: System, hs: seq<Happening>)
    requires ValidSystemRun(y, hs)
    ensures SystemRun(y, hs).spec == y.spec
    decreases hs
  {
    if hs != [] { SpecStays(NextSystem(y, hs[0]), hs[1..]); }
  }

  /** Progress over the protocol: if every launched step's row says succeeded whenever advance is called,
      the (longest + 1)-th call completes the workflow, whatever the queue does between the calls. */
  lemma CompletesOverProtocol(q: P.State, spec: seq<StepSpec>, hs: seq<Happening>, longest: nat)
    requires P.Reachable(q) && WellNamed(spec) && Closed(spec) && NoLongerChain(spec, longest)
    requires ValidSystemRun(Begun(q, spec), hs) && TimelyCalls(Begun(q, spec), hs) && CallCount(hs) > longest
    ensures SystemRun(Begun(q, spec), hs).status == Completed
  {
    InvReachable(q);
    var evs := RefinesWorkflow(Begun(q, spec), hs);
    assert View(Begun(q, spec)) == Start(spec);
    CompletesAfterLongestChain(spec, evs, longest);
  }

  lemma WorkflowOfRun(q: P.State, spec: seq<StepSpec>, hs: seq<Happening>)
    requires P.Reachable(q) && WellNamed(spec) && ValidSystemRun(Begun(q, spec), hs)
    ensures var y := SystemRun(Begun(q, spec), hs); SystemInv(y) && WorkflowInv(View(y))
  {
    InvReachable(q);
    var evs := RefinesWorkflow(Begun(q, spec), hs);
    assert View(Begun(q, spec)) == Start(spec);
    WorkflowInvRun(Start(spec), evs);
  }

  /** If, in any run, the row of a step says anything but succeeded after its effect is in, because a
      redelivery overwrote it for instance, the workflow never completes, however long it goes on. */
  lemma OverwrittenNeverCompletes(
    q: P.State, spec: seq<StepSpec>, before: seq<Happening>, y: System, hs: seq<Happening>, i: nat)
    requires P.Reachable(q) && WellNamed(spec)
    requires ValidSystemRun(Begun(q, spec), before) && SystemRun(Begun(q, spec), before) == y
    requires y.status != Completed && ValidSystemRun(y, hs)
    requires i < |y.rows| && HasOwnEffect(y.queue, y.rows[i].id) && !SucceededRow(y.queue, y.rows[i].id)
    ensures SystemRun(y, hs).status != Completed
    ensures i < |SystemRun(y, hs).rows| && !View(SystemRun(y, hs)).tasks[i].state.Succeeded?
  {
    WorkflowOfRun(q, spec, before);
    var evs := RefinesWorkflow(y, hs);
    assert View(y).tasks[i].effect && !View(y).tasks[i].state.Succeeded?;
    GivenUpNeverCompletes(View(y), evs, i);
    assert |View(SystemRun(y, hs)).tasks| == |SystemRun(y, hs).rows|;
  }

  // ---- what is submitted for a step ----

  /** The task of a row was submitted as its step says: same handler, same payload, same max_attempts, in
      the default queue, as a first attempt without a dedup key, and with the default backoff; its row is in
      the default queue and has no dedup key either; and the call published just that. */
  predicate SubmittedAs(q: P.State, row: Launched, message: Message, x: StepSpec) {
    && x.name == row.step && row.id in q.published
    && q.published[row.id].taskId == row.id
    && q.published[row.id].taskName == x.task
    && q.published[row.id].payload == x.payload
    && q.published[row.id].policy.maxAttempts == x.maxAttempts
    && q.published[row.id].policy.baseDelay == 1.0 && q.published[row.id].policy.cap == 300.0
    && q.published[row.id].policy.retryableErrors == [] && q.published[row.id].policy.terminalErrors == []
    && q.published[row.id].attempt == 0
    && q.published[row.id].dedupKey == None
    && q.published[row.id].queue == "default"
    && row.id in q.tables.tasks
    && q.tables.tasks[row.id].queue == "default" && q.tables.tasks[row.id].dedupKey == None
    && message.step == x.name && message.task == x.task
    && message.payload == x.payload && message.maxAttempts == x.maxAttempts
  }

  ghost predicate RowSubmitted(y: System, i: nat)
    requires i < |y.rows| && i < |y.published|
  {
    exists x :: x in y.spec && SubmittedAs(y.queue, y.rows[i], y.published[i], x)
  }

  ghost predicate AllSubmitted(y: System) {
    |y.published| == |y.rows| && forall i :: 0 <= i < |y.rows| ==> RowSubmitted(y, i)
  }

  /** Task rows stay, with their queue and dedup key. */
  ghost predicate SameRows(q: P.State, q': P.State) {
    forall id :: id in q.tables.tasks ==>
      && id in q'.tables.tasks
      && q'.tables.tasks[id].queue == q.tables.tasks[id].queue
      && q'.tables.tasks[id].dedupKey == q.tables.tasks[id].dedupKey
  }

  lemma SameRowsAfter(q: P.State, step: P.Step)
    requires P.Enabled(q, step)
    ensures SameRows(q, P.Next(q, step))
  {
    P.NextTables(q, step);
    RowIdentities(q, step);
  }

  lemma RowIdentities(q: P.State, step: P.Step)
    requires P.Enabled(q, step)
    ensures forall id :: id in q.tables.tasks ==>
      && id in P.TablesAfter(q, step).tasks
      && P.TablesAfter(q, step).tasks[id].queue == q.tables.tasks[id].queue
      && P.TablesAfter(q, step).tasks[id].dedupKey == q.tables.tasks[id].dedupKey
  {
  }

  lemma SubmittedStays(y: System, y': System)
    requires AllSubmitted(y) && y'.spec == y.spec && y.rows <= y'.rows && y.published <= y'.published
    requires forall id :: id in y.queue.published ==>
      id in y'.queue.published && y'.queue.published[id] == y.queue.published[id]
    requires SameRows(y.queue, y'.queue)
    ensures forall i :: 0 <= i < |y.rows| ==> RowSubmitted(y', i)
  {
    forall i | 0 <= i < |y.rows| ensures RowSubmitted(y', i) {
      assert RowSubmitted(y, i);
      var x :| x in y.spec && SubmittedAs(y.queue, y.rows[i], y.published[i], x);
      assert SubmittedAs(y'.queue, y'.rows[i], y'.published[i], x);
    }
  }

  lemma {:induction false} ReadyAreSteps(steps: seq<StepSpec>, completed: set<string>, states: map<string, TaskState>)
    ensures forall x :: x in ToLaunch(ReadySteps(steps, completed), states) ==> x in steps
  {
    ReadyStepsExact(steps, completed);
    ToLaunchExact(ReadySteps(steps, completed), states);
  }

  lemma StartsSteps(w: Workflow)
    ensures forall x :: x in ToStart(w) ==> x in w.spec
  {
    ReadyAreSteps(w.spec, StepsIn(StepStates(w.tasks), Succeeded), StepStates(w.tasks));
  }

  lemma CallSubmits(y: System, ids: seq<TaskId>)
    requires AllSubmitted(y) && CanHappen(y, Call(ids))
    ensures AllSubmitted(NextSystem(y, Call(ids)))
  {
    var xs, y' := ToStart(View(y)), NextSystem(y, Call(ids));
    LaunchRows(y.queue, xs, ids);
    SubmittedStays(y, y');
    StartsSteps(View(y));
    forall i | |y.rows| <= i < |y'.rows| ensures RowSubmitted(y', i) {
      NewRowSubmitted(y, y', xs, ids, i - |y.rows|);
    }
  }

  lemma NewRowSubmitted(y: System, y': System, xs: seq<StepSpec>, ids: seq<TaskId>, k: nat)
    requires |ids| == |xs| && k < |xs| && (forall x :: x in xs ==> x in y.spec) && |y.published| == |y.rows|
    requires y'.spec == y.spec && y'.rows == y.rows + NewRows(xs, ids) && y'.published == y.published + NewMessages(xs)
    requires LaunchedRows(y.queue, y'.queue, ids) && Sent(y'.queue, xs, ids)
    ensures RowSubmitted(y', |y.rows| + k)
  {
    var i := |y.rows| + k;
    assert xs[k] in xs;
    assert y'.rows[i] == Launched(xs[k].name, ids[k]);
    assert y'.published[i] == Message(xs[k].name, xs[k].task, xs[k].payload, xs[k].maxAttempts);
    assert SubmittedAs(y'.queue, y'.rows[i], y'.published[i], xs[k]);
  }

  lemma QueueKeepsSubmitted(y: System, step: P.Step)
    requires AllSubmitted(y) && P.Enabled(y.queue, step)
    ensures AllSubmitted(NextSystem(y, InQueue(step)))
  {
    PublishedKept(y.queue, step);
    SameRowsAfter(y.queue, step);
    SubmittedStays(y, NextSystem(y, InQueue(step)));
  }

  lemma {:induction false} SubmittedRun(y: System, hs: seq<Happening>)
    requires AllSubmitted(y) && ValidSystemRun(y, hs)
    ensures AllSubmitted(SystemRun(y, hs))
    decreases hs
  {
    if hs != [] {
      match hs[0] {
        case InQueue(step) => QueueKeepsSubmitted(y, step);
        case Call(ids) => CallSubmits(y, ids);
      }
      SubmittedRun(NextSystem(y, hs[0]), hs[1..]);
    }
  }

  /** Over any run of the whole system every launched step was submitted to the queue as its spec says. */
  lemma StepsAreSubmitted(q: P.State, spec: seq<StepSpec>, hs: seq<Happening>, i: nat) returns (x: StepSpec)
    requires ValidSystemRun(Begun(q, spec), hs) && i < |SystemRun(Begun(q, spec), hs).rows|
    ensures var y := SystemRun(Begun(q, spec), hs);
      x in spec && i < |y.published| && SubmittedAs(y.queue, y.rows[i], y.published[i], x)
  {
    var y := SystemRun(Begun(q, spec), hs);
    SubmittedRun(Begun(q, spec), hs);
    SpecStays(Begun(q, spec), hs);
    assert RowSubmitted(y, i);
    x :| x in y.spec && SubmittedAs(y.queue, y.rows[i], y.published[i], x);
  }

  // ---- a dead step fails the workflow ----

  /** In any run: if the workflow runs and a step's row says dead, the next call fails it and launches
      nothing. */
  lemma DeadStepFails(q: P.State, spec: seq<StepSpec>, hs: seq<Happening>, i: nat)
    requires P.Reachable(q) && WellNamed(spec) && ValidSystemRun(Begun(q, spec), hs)
    requires var y := SystemRun(Begun(q, spec), hs);
      y.status == Running && i < |y.rows| && RowState(y.queue, y.rows[i].id) == Dead
    ensures var y := SystemRun(Begun(q, spec), hs);
      && CanHappen(y, Call([]))
      && NextSystem(y, Call([])).status == FailedStatus && NextSystem(y, Call([])).rows == y.rows
  {
    WorkflowOfRun(q, spec, hs);
    DeadRowFails(SystemRun(Begun(q, spec), hs), i);
  }

  lemma DeadRowFails(y: System, i: nat)
    requires WorkflowInv(View(y)) && y.status == Running
    requires i < |y.rows| && RowState(y.queue, y.rows[i].id) == Dead
    ensures CanHappen(y, Call([]))
    ensures NextSystem(y, Call([])).status == FailedStatus && NextSystem(y, Call([])).rows == y.rows
  {
    assert View(y).tasks[i].state.Dead?;
    AdvanceVerdict(View(y));
    DeadStartsNothing(View(y));
    assert LaunchSteps([], []) == [];
    assert NewRows([], []) == [];
  }

  lemma DeadStartsNothing(w: Workflow)
    requires WorkflowInv(w) && w.status == Running && Advance(w).status == FailedStatus
    ensures ToStart(w) == []
  {
  }

  /** From the dead letter to the workflow: when a delivery of a launched step has dead-lettered its task and
      marked it, and nothing has touched the row since, the next call of advance fails the workflow. */
  lemma DeadLetterFailsWorkflow(
    q: P.State, spec: seq<StepSpec>, before: seq<Happening>, y: System, a: nat, steps: seq<P.Step>, i: nat)
    requires P.Reachable(q) && WellNamed(spec)
    requires ValidSystemRun(Begun(q, spec), before) && SystemRun(Begun(q, spec), before) == y
    requires y.status == Running && i < |y.rows|
    requires P.Enabled(y.queue, P.MarkDead(a)) && y.queue.acts[a].env.taskId == y.rows[i].id
    requires P.ValidRun(P.Next(y.queue, P.MarkDead(a)), steps)
    requires LastState(P.Next(y.queue, P.MarkDead(a)), steps, y.rows[i].id) == None
    ensures var y' := y.(queue := P.Run(P.Next(y.queue, P.MarkDead(a)), steps));
      CanHappen(y', Call([])) && NextSystem(y', Call([])).status == FailedStatus
  {
    var q1 := P.Next(y.queue, P.MarkDead(a));
    var y1 := y.(queue := q1);
    WorkflowOfRun(q, spec, before);
    DeadLetteredIsDead(y.queue, a, steps);
    LiftRun(y1, steps);
    var more := [InQueue(P.MarkDead(a))] + Lifted(steps);
    SystemRunCons(y, InQueue(P.MarkDead(a)), Lifted(steps));
    KeepsWorkflowInv(y, more);
    DeadRowFails(SystemRun(y, more), i);
  }

  lemma KeepsWorkflowInv(y: System, hs: seq<Happening>)
    requires SystemInv(y) && WorkflowInv(View(y)) && ValidSystemRun(y, hs)
    ensures WorkflowInv(View(SystemRun(y, hs)))
  {
    var evs := RefinesWorkflow(y, hs);
    WorkflowInvRun(View(y), evs);
  }

  lemma SystemRunCons(y: System, h: Happening, hs: seq<Happening>)
    requires CanHappen(y, h) && ValidSystemRun(NextSystem(y, h), hs)
    ensures ValidSystemRun(y, [h] + hs) && SystemRun(y, [h] + hs) == SystemRun(NextSystem(y, h), hs)
  {
    assert ([h] + hs)[1..] == hs;
  }

  // ---- such a row exists ----

  function Lifted(steps: seq<P.Step>): (hs: seq<Happening>)
    ensures |hs| == |steps| && forall i :: 0 <= i < |hs| ==> hs[i] == InQueue(steps[i])
  {
    seq(|steps|, i requires 0 <= i < |steps| => InQueue(steps[i]))
  }

  lemma {:induction false} LiftRun(y: System, steps: seq<P.Step>)
    requires P.ValidRun(y.queue, steps)
    ensures ValidSystemRun(y, Lifted(steps)) && SystemRun(y, Lifted(steps)) == y.(queue := P.Run(y.queue, steps))
    decreases steps
  {
    if steps != [] {
      assert Lifted(steps)[1..] == Lifted(steps[1..]);
      LiftRun(NextSystem(y, InQueue(steps[0])), steps[1..]);
    }
  }

  lemma FirstView(x: StepSpec)
    requires x.name != "" && x.dependsOn == []
    ensures View(Begun(P.INIT, [x])) == Start([x])
    ensures ToStart(View(Begun(P.INIT, [x]))) == [x] && Advance(View(Begun(P.INIT, [x]))).status == Running
  {
    StartsTheStep(x);
    assert View(Begun(P.INIT, [x])) == Start([x]);
  }

  lemma FirstCall(x: StepSpec, id: TaskId)
    requires x.name != "" && x.dependsOn == []
    ensures CanHappen(Begun(P.INIT, [x]), Call([id]))
    ensures NextSystem(Begun(P.INIT, [x]), Call([id])) ==
      System(Submitted(StepEnvelope(x, id)), [x], Running, [Launched(x.name, id)], NewMessages([x]))
  {
    FirstView(x);
    LaunchesTheTask(x, id);
    assert NewRows([x], [id]) == [Launched(x.name, id)];
  }

  lemma NothingYet()
    ensures StepStates([]) == map[]
    ensures StepsIn(map[], Succeeded) == {} && StepsIn(map[], Dead) == {}
  {
  }

  lemma LaunchesTheStep(x: StepSpec)
    requires x.dependsOn == []
    ensures ToLaunch(ReadySteps([x], {}), map[]) == [x]
  {
    assert [x][..0] == [] && ReadySteps([], {}) == [];
    assert IsReady(x, {});
    assert ReadySteps([x], {}) == [] + [x] == [x];
    var none: map<string, TaskState> := map[];
    assert ToLaunch([], none) == [] && ToLaunch([x], none) == [] + [x];
  }

  lemma StartsTheStep(x: StepSpec)
    requires x.name != "" && x.dependsOn == []
    ensures ToStart(Start([x])) == [x] && Advance(Start([x])).status == Running
  {
    NothingYet();
    LaunchesTheStep(x);
    assert [x][0].name in Names([x]);
  }

  lemma LaunchesTheTask(x: StepSpec, id: TaskId)
    ensures P.ValidRun(P.INIT, LaunchSteps([x], [id]))
    ensures P.Run(P.INIT, LaunchSteps([x], [id])) == Submitted(StepEnvelope(x, id))
  {
    var steps := LaunchOne(x, id);
    assert [x][..0] == [] && [id][..0] == [];
    assert LaunchSteps([x], [id]) == [] + steps == steps;
    var q1 := P.Next(P.INIT, steps[0]);
    assert steps[1..][0] == steps[1] && steps[1..][1..] == [];
    assert P.ValidRun(q1, steps[1..]);
    assert P.Run(P.INIT, steps) == P.Run(q1, steps[1..]);
    assert P.Run(q1, steps[1..]) == P.Run(P.Next(q1, steps[1]), []);
    assert P.Next(q1, steps[1]) == Submitted(StepEnvelope(x, id));
  }

  /** And it happens: every workflow of one step has a run after which the step's effect is in, both
      deliveries of its task have reported success, its row says leased, and no continuation completes
      the workflow. */
  lemma StuckWorkflow(x: StepSpec, id: TaskId, w: string, r: string, w': string)
    returns (hs: seq<Happening>, y: System)
    requires x.name != "" && x.dependsOn == []
    ensures ValidSystemRun(Begun(P.INIT, [x]), hs) && SystemRun(Begun(P.INIT, [x]), hs) == y
    ensures y.rows == [Launched(x.name, id)] && y.status == Running && HasOwnEffect(y.queue, id)
    ensures RowState(y.queue, id) == Leased
    ensures forall a :: 0 <= a < |y.queue.acts| ==> E.Vouches(y.queue.acts[a].phase)
    ensures forall more :: ValidSystemRun(y, more) ==> SystemRun(y, more).status != Completed
  {
    var q := LeasedForGood(StepEnvelope(x, id), w, r, w');
    hs, y := CallThenQueue(x, id, q);
    StaysStuck(x, hs, y);
  }

  lemma LeasedForGood(e: Envelope, w: string, r: string, w': string) returns (q: P.State)
    requires e.attempt == 0
    ensures P.LeadsTo(Submitted(e), q)
    ensures HasOwnEffect(q, e.taskId) && e.taskId in q.tables.tasks && q.tables.tasks[e.taskId].state == Leased
    ensures forall a :: 0 <= a < |q.acts| ==> E.Vouches(q.acts[a].phase)
  {
    q := ReclaimerCommits(e, w, r, w');
  }

  lemma CallThenQueue(x: StepSpec, id: TaskId, q: P.State) returns (hs: seq<Happening>, y: System)
    requires x.name != "" && x.dependsOn == [] && P.LeadsTo(Submitted(StepEnvelope(x, id)), q)
    ensures ValidSystemRun(Begun(P.INIT, [x]), hs) && SystemRun(Begun(P.INIT, [x]), hs) == y
    ensures y == System(q, [x], Running, [Launched(x.name, id)], NewMessages([x]))
  {
    var e := StepEnvelope(x, id);
    var steps :| P.ValidRun(Submitted(e), steps) && P.Run(Submitted(e), steps) == q;
    FirstCall(x, id);
    var y1 := NextSystem(Begun(P.INIT, [x]), Call([id]));
    LiftRun(y1, steps);
    hs, y := [Call([id])] + Lifted(steps), y1.(queue := q);
    assert hs[1..] == Lifted(steps);
  }

  lemma StaysStuck(x: StepSpec, hs: seq<Happening>, y: System)
    requires x.name != "" && ValidSystemRun(Begun(P.INIT, [x]), hs) && SystemRun(Begun(P.INIT, [x]), hs) == y
    requires |y.rows| == 1 && y.status == Running
    requires HasOwnEffect(y.queue, y.rows[0].id) && !SucceededRow(y.queue, y.rows[0].id)
    ensures forall more :: ValidSystemRun(y, more) ==> SystemRun(y, more).status != Completed
  {
    assert P.ValidRun(P.INIT, []) && P.Run(P.INIT, []) == P.INIT;
    forall more | ValidSystemRun(y, more) ensures SystemRun(y, more).status != Completed {
      OverwrittenNeverCompletes(P.INIT, [x], hs, y, more, 0);
    }
  }
}
