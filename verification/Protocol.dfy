/** The lease / fence / commit / redelivery protocol as one transition system.

    The shared state is what Redis and Postgres hold.  Every delivery of a message to a worker is an
    activity that walks through `TaskExecutor.execute` and `WorkerLoop._process_message`; its phase
    is where in that code it stands.  One step is one Redis command or script, one Postgres
    transaction boundary, or one statement whose result others can interfere with, so a run is an
    arbitrary interleaving of any number of workers with crashes, lease expiry and redelivery. */
module Protocol {
  import opened Envelopes
  import opened Store
  import Leases
  import Backoff

  /** A stream entry; its index in the stream is its message id. */
  datatype Delivery = Waiting | InFlight | Acked

  datatype Entry = Entry(env: Envelope, status: Delivery)

  datatype Phase =
    | Adopted                                                         // reclaimed, old attempt still to be closed
    | Received                                                        // about to acquire the lease
    | Holding(fence: nat)                                             // lease acquired, attempt not yet recorded
    | Executing(fence: nat)                                           // attempt recorded, handler running
    | HandlerFailed(fence: nat, errorType: string, error: string)     // handler raised or timed out
    | HandlerDone(fence: nat, result: string)                         // handler returned
    | EffectAbsent(fence: nat, result: string)                        // SELECT saw no effect row
    | EffectInserted(fence: nat, result: string)                      // INSERT flushed, not committed
    | EffectPresent(fence: nat)                                       // SELECT saw a row of no higher fence
    | Settled(fence: nat, success: bool, error: string)               // transaction over, lease to be released
    | Returned(success: bool, error: string)                          // execute has returned
    | DeadLettered                                                    // in the DLQ, task row still to be marked
    | Handled                                                         // retried or dead-lettered, ack to come
    | Finished                                                        // done, crashed or abandoned by an exception

  datatype Activity = Activity(worker: string, msg: nat, env: Envelope, phase: Phase)

  /** The i-th lease ever granted has fence i + 1. */
  datatype Grant = Grant(task: TaskId, worker: string)

  datatype State = State(
    leases: Leases.Leases,
    stream: seq<Entry>,
    sched: seq<Envelope>,                 // the scheduled set; wake times are left to the environment
    dlq: seq<Envelope>,
    tables: Tables,
    acts: seq<Activity>,
    grants: seq<Grant>,                   // history: every lease granted
    published: map<TaskId, Envelope>)     // history: every task published or scheduled

  const INIT := State(Leases.Leases(0, map[]), [], [], [], EMPTY, [], [], map[])

  datatype HandlerOutcome = Success(result: string) | Failure(errorType: string, error: string)

  datatype Step =
    // control plane and environment
    | CreateRow(task: TaskId, row: TaskRow)
    | Submit(env: Envelope, delayed: bool)
    | Deliver(worker: string, msg: nat)
    | Reclaim(worker: string, msg: nat)
    | Expire(task: TaskId)
    | Promote(index: nat)
    | Crash(a: nat)
    // the code of one activity
    | CloseLost(a: nat, applied: bool)
    | Acquire(a: nat)
    | Record(a: nat, applied: bool, reported: bool, error: string)
    | Handle(a: nat, outcome: HandlerOutcome)
    | Select(a: nat, ok: bool, error: string)
    | Insert(a: nat, ok: bool, error: string)
    | Commit(a: nat, applied: bool, reported: bool, error: string)
    | Release(a: nat)
    | Schedule(a: nat)
    | DeadLetter(a: nat)
    | MarkDead(a: nat)
    | Ack(a: nat)

  /** `error_repr.split(":")[0] if ":" in error_repr else error_repr`: everything before the first
      colon. */
  function ErrorType(error: string): (r: string)
    ensures r <= error && ':' !in r && (r == error || error[|r|] == ':')
  {
    if error == "" || error[0] == ':' then "" else [error[0]] + ErrorType(error[1..])
  }

  predicate WillRetry(act: Activity)
    requires act.phase.Returned?
  {
    Backoff.IsRetryable(act.env.policy, ErrorType(act.phase.error), act.env.attempt + 1)
  }

  function To(s: State, a: nat, phase: Phase): State
    requires a < |s.acts|
  {
    s.(acts := s.acts[a := s.acts[a].(phase := phase)])
  }

  /** Another open transaction holds the index entry of this effect key. */
  predicate Blocked(s: State, a: nat)
    requires a < |s.acts|
  {
    exists b :: 0 <= b < |s.acts| && b != a && s.acts[b].phase.EffectInserted? &&
      EffectKey(s.acts[b].env) == EffectKey(s.acts[a].env)
  }

  predicate Enabled(s: State, step: Step) {
    match step
    case CreateRow(task, row) => task !in s.tables.tasks && (row.state.Pending? || row.state.Scheduled?)
    case Submit(env, _) => env.taskId !in s.published && env.attempt == 0
    case Deliver(_, msg) => msg < |s.stream| && s.stream[msg].status.Waiting?
    case Reclaim(_, msg) => msg < |s.stream| && s.stream[msg].status.InFlight?
    case Expire(task) => true
    case Promote(i) => i < |s.sched|
    case Crash(a) => a < |s.acts|
    case CloseLost(a, _) => a < |s.acts| && s.acts[a].phase.Adopted?
    case Acquire(a) => a < |s.acts| && s.acts[a].phase.Received?
    case Record(a, applied, reported, _) =>
      && a < |s.acts| && s.acts[a].phase.Holding?
      && (reported ==> applied)
      && (applied ==> CanCreateAttempt(s.tables, s.acts[a].env.taskId, s.acts[a].env.attempt + 1))
    case Handle(a, _) => a < |s.acts| && s.acts[a].phase.Executing?
    case Select(a, _, _) => a < |s.acts| && s.acts[a].phase.HandlerDone?
    case Insert(a, ok, _) => a < |s.acts| && s.acts[a].phase.EffectAbsent? && (ok ==> !Blocked(s, a))
    case Commit(a, applied, reported, _) =>
      && a < |s.acts|
      && (s.acts[a].phase.HandlerFailed? || s.acts[a].phase.EffectInserted? || s.acts[a].phase.EffectPresent?)
      && (reported ==> applied)
    case Release(a) => a < |s.acts| && s.acts[a].phase.Settled?
    case Schedule(a) => a < |s.acts| && s.acts[a].phase.Returned? && !s.acts[a].phase.success && WillRetry(s.acts[a])
    case DeadLetter(a) => a < |s.acts| && s.acts[a].phase.Returned? && !s.acts[a].phase.success && !WillRetry(s.acts[a])
    case MarkDead(a) => a < |s.acts| && s.acts[a].phase.DeadLettered?
    case Ack(a) =>
      && a < |s.acts| && s.acts[a].msg < |s.stream|
      && (s.acts[a].phase.Handled? || (s.acts[a].phase.Returned? && s.acts[a].phase.success))
  }

  /** What the transaction an activity has open writes when it commits. */
  function Committed(tb: Tables, act: Activity): Tables
    requires act.phase.HandlerFailed? || act.phase.EffectInserted? || act.phase.EffectPresent?
  {
    var task, n := act.env.taskId, act.env.attempt + 1;
    match act.phase
    case EffectInserted(fence, result) =>
      WithAttemptClosed(
        WithState(WithEffect(tb, EffectKey(act.env), EffectRow(task, fence, result)), task, Succeeded),
        task, n, ClosedSucceeded)
    case EffectPresent(_) => WithAttemptClosed(tb, task, n, ClosedSucceeded)
    case HandlerFailed(_, errorType, _) =>
      WithAttemptClosed(tb, task, n, if errorType == "FenceRejectedError" then LeaseLost else ClosedFailed)
  }

  /** The committed tables after a step. */
  function TablesAfter(s: State, step: Step): Tables
    requires Enabled(s, step)
  {
    match step
    case CreateRow(task, row) => s.tables.(tasks := s.tables.tasks[task := row])
    case CloseLost(a, applied) =>
      var env := s.acts[a].env;
      if applied && env.attempt >= 1
      then WithAttemptClosed(s.tables, env.taskId, env.attempt - 1, LeaseLost) else s.tables
    case Record(a, applied, _, _) =>
      var act := s.acts[a];
      var task, n := act.env.taskId, act.env.attempt + 1;
      if applied then WithLeased(WithAttempt(s.tables, task, n, act.worker, act.phase.fence), task, n) else s.tables
    case Commit(a, applied, _, _) => if applied then Committed(s.tables, s.acts[a]) else s.tables
    case MarkDead(a) => WithState(s.tables, s.acts[a].env.taskId, Dead)
    case _ => s.tables
  }

  function ScheduleEnvelope(sched: seq<Envelope>, e: Envelope): seq<Envelope> {
    if e in sched then sched else sched + [e]
  }

  function Next(s: State, step: Step): State
    requires Enabled(s, step)
  {
    match step
    case CreateRow(_, _) => s.(tables := TablesAfter(s, step))
    case Submit(env, delayed) =>
      var s' := s.(published := s.published[env.taskId := env]);
      if delayed then s'.(sched := ScheduleEnvelope(s.sched, env))
      else s'.(stream := s.stream + [Entry(env, Waiting)])
    case Deliver(worker, msg) =>
      s.(stream := s.stream[msg := s.stream[msg].(status := InFlight)],
         acts := s.acts + [Activity(worker, msg, s.stream[msg].env, Received)])
    case Reclaim(worker, msg) =>
      s.(acts := s.acts + [Activity(worker, msg, NextAttempt(s.stream[msg].env), Adopted)])
    case Expire(task) => s.(leases := Leases.Expire(s.leases, task))
    case Promote(i) =>
      s.(sched := s.sched[..i] + s.sched[i + 1..], stream := s.stream + [Entry(s.sched[i], Waiting)])
    case Crash(a) => To(s, a, Finished)
    case CloseLost(a, _) => To(s.(tables := TablesAfter(s, step)), a, Received)
    case Acquire(a) =>
      var act := s.acts[a];
      var (leases, fence) := Leases.Acquire(s.leases, act.env.taskId, act.worker);
      if fence == 0 then To(s, a, Returned(false, "LeaseAcquireError: already held"))
      else To(s.(leases := leases, grants := s.grants + [Grant(act.env.taskId, act.worker)]), a, Holding(fence))
    case Record(a, _, reported, error) =>
      var fence := s.acts[a].phase.fence;
      To(s.(tables := TablesAfter(s, step)), a,
         if reported then Executing(fence) else Settled(fence, false, "StoreError: " + error))
    case Handle(a, outcome) =>
      var fence := s.acts[a].phase.fence;
      (match outcome
       case Success(result) => To(s, a, HandlerDone(fence, result))
       case Failure(errorType, error) => To(s, a, HandlerFailed(fence, errorType, error)))
    case Select(a, ok, error) =>
      var fence, result := s.acts[a].phase.fence, s.acts[a].phase.result;
      if !ok then To(s, a, Settled(fence, false, "CommitError: " + error)) else
      (match Examine(s.tables, EffectKey(s.acts[a].env), fence)
       case Absent => To(s, a, EffectAbsent(fence, result))
       case AlreadyCommitted => To(s, a, EffectPresent(fence))
       case FenceRejected => To(s, a, Settled(fence, false, error)))
    case Insert(a, ok, error) =>
      var fence, result := s.acts[a].phase.fence, s.acts[a].phase.result;
      if ok && EffectKey(s.acts[a].env) !in s.tables.effects then To(s, a, EffectInserted(fence, result))
      else To(s, a, Settled(fence, false, "CommitError: " + error))
    case Commit(a, _, reported, error) =>
      var p := s.acts[a].phase;
      To(s.(tables := TablesAfter(s, step)), a, Settled(p.fence, reported && !p.HandlerFailed?,
        if !reported then "CommitError: " + error else if p.HandlerFailed? then p.error else ""))
    case Release(a) =>
      var act := s.acts[a];
      To(s.(leases := Leases.Release(s.leases, act.env.taskId, act.worker, act.phase.fence)), a,
         Returned(act.phase.success, act.phase.error))
    case Schedule(a) =>
      To(s.(sched := ScheduleEnvelope(s.sched, NextAttempt(s.acts[a].env))), a, Handled)
    case DeadLetter(a) => To(s.(dlq := s.dlq + [s.acts[a].env]), a, DeadLettered)
    case MarkDead(a) => To(s.(tables := TablesAfter(s, step)), a, Handled)
    case Ack(a) =>
      var msg := s.acts[a].msg;
      To(s.(stream := s.stream[msg := s.stream[msg].(status := Acked)]), a, Finished)
  }

  /** A run: every step was enabled when it was taken. */
  predicate ValidRun(s: State, steps: seq<Step>)
    decreases steps
  {
    steps == [] || (Enabled(s, steps[0]) && ValidRun(Next(s, steps[0]), steps[1..]))
  }

  function Run(s: State, steps: seq<Step>): State
    requires ValidRun(s, steps)
    decreases steps
  {
    if steps == [] then s else Run(Next(s, steps[0]), steps[1..])
  }

  ghost predicate Reachable(s: State) {
    exists steps :: ValidRun(INIT, steps) && Run(INIT, steps) == s
  }

  /** Steps taken by an existing activity. */
  predicate IsMove(step: Step) {
    match step
    case CreateRow(_, _) => false
    case Submit(_, _) => false
    case Deliver(_, _) => false
    case Reclaim(_, _) => false
    case Expire(_) => false
    case Promote(_) => false
    case _ => true
  }

  lemma NextTables(s: State, step: Step)
    requires Enabled(s, step)
    ensures Next(s, step).tables == TablesAfter(s, step)
  {
  }

  /** A move changes the phase of one activity, and only the steps named here touch each part of
      the shared state. */
  lemma MoveFrame(s: State, step: Step)
    requires Enabled(s, step) && IsMove(step)
    ensures step.a < |s.acts|
    ensures var s' := Next(s, step);
      && |s'.acts| == |s.acts|
      && s'.acts == s.acts[step.a := s.acts[step.a].(phase := s'.acts[step.a].phase)]
      && s'.published == s.published
      && (!step.Ack? ==> s'.stream == s.stream)
      && (!step.Schedule? ==> s'.sched == s.sched)
      && (!step.DeadLetter? ==> s'.dlq == s.dlq)
      && (!step.Acquire? ==> s'.grants == s.grants)
      && (!step.Acquire? && !step.Release? ==> s'.leases == s.leases)
      && (!step.CloseLost? && !step.Record? && !step.Commit? && !step.MarkDead? ==> s'.tables == s.tables)
  {
  }

  /** The other steps leave every activity where it is and may add one. */
  lemma OtherFrame(s: State, step: Step)
    requires Enabled(s, step) && !IsMove(step)
    ensures var s' := Next(s, step);
      && |s.acts| <= |s'.acts| <= |s.acts| + 1
      && s'.acts[..|s.acts|] == s.acts
      && (|s'.acts| > |s.acts| ==> s'.acts[|s.acts|].phase.Received? || s'.acts[|s.acts|].phase.Adopted?)
      && s'.grants == s.grants && s'.dlq == s.dlq
      && (!step.CreateRow? ==> s'.tables == s.tables)
      && (!step.Expire? ==> s'.leases == s.leases)
      && (!step.Submit? ==> s'.published == s.published)
      && (!step.Submit? && !step.Deliver? && !step.Promote? ==> s'.stream == s.stream)
      && (!step.Submit? && !step.Promote? ==> s'.sched == s.sched)
  {
  }

  lemma {:induction false} RunAppend(s: State, steps: seq<Step>, step: Step)
    requires ValidRun(s, steps) && Enabled(Run(s, steps), step)
    ensures ValidRun(s, steps + [step]) && Run(s, steps + [step]) == Next(Run(s, steps), step)
    decreases steps
  {
    if steps == [] {
      assert steps + [step] == [step] && [step][1..] == [];
    } else {
      assert (steps + [step])[1..] == steps[1..] + [step];
      RunAppend(Next(s, steps[0]), steps[1..], step);
    }
  }

  lemma {:induction false} RunThenRun(s: State, steps: seq<Step>, more: seq<Step>)
    requires ValidRun(s, steps) && ValidRun(Run(s, steps), more)
    ensures ValidRun(s, steps + more) && Run(s, steps + more) == Run(Run(s, steps), more)
    decreases steps
  {
    if steps == [] {
      assert steps + more == more;
    } else {
      assert (steps + more)[1..] == steps[1..] + more;
      RunThenRun(Next(s, steps[0]), steps[1..], more);
    }
  }

  lemma ReachableNext(s: State, step: Step)
    requires Reachable(s) && Enabled(s, step)
    ensures Reachable(Next(s, step))
  {
    var steps :| ValidRun(INIT, steps) && Run(INIT, steps) == s;
    RunAppend(INIT, steps, step);
  }

  /** Some run leads from one state to the other. */
  ghost predicate LeadsTo(s: State, s': State) {
    exists steps :: ValidRun(s, steps) && Run(s, steps) == s'
  }

  lemma LeadsNext(s: State, s': State, step: Step)
    requires LeadsTo(s, s') && Enabled(s', step)
    ensures LeadsTo(s, Next(s', step))
  {
    var steps :| ValidRun(s, steps) && Run(s, steps) == s';
    RunAppend(s, steps, step);
  }

  lemma ReachableVia(s: State, s': State)
    requires Reachable(s) && LeadsTo(s, s')
    ensures Reachable(s')
  {
    var steps :| ValidRun(INIT, steps) && Run(INIT, steps) == s;
    var more :| ValidRun(s, more) && Run(s, more) == s';
    RunThenRun(INIT, steps, more);
  }

  function Entries(es: seq<Envelope>): seq<Entry> {
    seq(|es|, i requires 0 <= i < |es| => Entry(es[i], Waiting))
  }

  /** The promotion script moves a whole batch at once; that is a run of single promotions. */
  lemma {:induction false} BatchPromotion(s: State, k: nat, steps: seq<Step>)
    requires k <= |s.sched| && steps == seq(k, _ => Promote(0))
    ensures ValidRun(s, steps)
    ensures Run(s, steps) == s.(sched := s.sched[k..], stream := s.stream + Entries(s.sched[..k]))
    decreases k
  {
    if k == 0 {
      assert s.sched[0..] == s.sched && s.stream + Entries(s.sched[..0]) == s.stream;
    } else {
      var s' := Next(s, Promote(0));
      assert s'.sched == s.sched[1..];
      BatchPromotion(s', k - 1, steps[1..]);
      assert s'.sched[k - 1..] == s.sched[k..];
      assert s'.stream + Entries(s'.sched[..k - 1]) == s.stream + Entries(s.sched[..k]);
    }
  }
}
