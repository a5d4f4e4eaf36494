/** The code of one delivery in its own form: `TaskExecutor.execute` and
    `WorkerLoop._process_message`, statement by statement, with the rest of the system running in
    between.  Every statement is a step of the transition system, so a whole call, under any
    interference and with any call to Redis or Postgres failing or raising, is a run of it.  Database
    work goes through a repository session, and what a session writes is what its step writes. */
module Workers {
  import opened Envelopes
  import opened Store
  import opened Protocol
  import opened Effects
  import opened Deliveries
  import opened OwnerStrings
  import Leases
  import Backoff

  /** The calls whose exceptions nothing inside execute or _process_message handles. */
  datatype Call =
    | AcquireCall | HeartbeatCall | ReleaseCall       // in execute
    | FirstSessionExit | SecondSessionExit            // rolling back or closing its two sessions
    | ParkCall | MarkCall | AckCall                   // in _process_message
    | CloseCall                                       // in the reclaim loop

  /** A call that raises may have been lost, or done and only not reported. */
  datatype Fault = Lost | Unreported

  /** What the world decides for one delivery: whether transactions apply and are reported as applied,
      what the handler does, which calls raise, and the texts of errors. */
  datatype Luck = Luck(
    recordApplied: bool, recordReported: bool,
    outcome: HandlerOutcome,
    selectOk: bool, insertOk: bool,
    commitApplied: bool, commitReported: bool,
    faults: map<Call, Fault>,
    error: string)
  {
    predicate IsLost(call: Call) {
      call in faults && faults[call].Lost?
    }

    predicate IsUnreported(call: Call) {
      call in faults && faults[call].Unreported?
    }
  }

  /** Nothing goes wrong outside the handler. */
  predicate Smooth(luck: Luck) {
    && luck.faults == map[] && luck.recordApplied && luck.recordReported
    && luck.selectOk && luck.insertOk && luck.commitApplied && luck.commitReported
  }

  // ---- what a delivery that nobody interferes with comes to, in terms of rows and keys ----

  /** The lease is free, the task has its row and the attempt number is unused. */
  predicate CanStart(s: State, act: Activity) {
    && act.env.taskId !in s.leases.held
    && act.env.taskId in s.tables.tasks
    && (act.env.taskId, act.env.attempt + 1) !in s.tables.attempts
  }

  /** Where the effect of a task belongs: under its dedup key if it has a non-empty one, else under
      its id. */
  predicate Places(e: Envelope, key: string) {
    && (e.dedupKey.None? ==> key == e.taskId)
    && (e.dedupKey.Some? ==> key == if e.dedupKey.value == "" then e.taskId else e.dedupKey.value)
  }

  /** The fence after the last one was granted; below 10^14 the lease is given back, from there on Lua
      cannot match it and it stays until it expires. */
  predicate LeaseUsed(s: State, s': State, act: Activity) {
    && s'.leases.counter == s.leases.counter + 1
    && s'.grants == s.grants + [Grant(act.env.taskId, act.worker)]
    && (s'.leases.counter < LUA_PLAIN_LIMIT ==> s'.leases.held == s.leases.held)
    && (s'.leases.counter >= LUA_PLAIN_LIMIT ==> s'.leases.held.Keys == s.leases.held.Keys + {act.env.taskId})
  }

  /** The attempt row and the task row that a started delivery leaves. */
  predicate AttemptLeft(s: State, s': State, act: Activity, outcome: Outcome, state: TaskState)
    requires act.env.taskId in s.tables.tasks
  {
    var task, n := act.env.taskId, act.env.attempt + 1;
    && s'.tables.attempts == s.tables.attempts[(task, n) := AttemptRow(act.worker, s.leases.counter + 1, outcome)]
    && s'.tables.tasks == s.tables.tasks[task := s.tables.tasks[task].(state := state, attempt := n)]
  }

  /** Success: one new effect row, the task succeeded, the attempt closed as succeeded. */
  ghost predicate Delivered(s: State, s': State, act: Activity, result: string)
    requires act.env.taskId in s.tables.tasks
  {
    && LeaseUsed(s, s', act) && AttemptLeft(s, s', act, ClosedSucceeded, Succeeded)
    && forall key :: Places(act.env, key) ==>
         s'.tables.effects == s.tables.effects[key := EffectRow(act.env.taskId, s.leases.counter + 1, result)]
  }

  /** The effect was there already, under no higher fence: the attempt is closed as succeeded, but the
      task row stays leased. */
  ghost predicate Repeated(s: State, s': State, act: Activity)
    requires act.env.taskId in s.tables.tasks
  {
    && LeaseUsed(s, s', act) && AttemptLeft(s, s', act, ClosedSucceeded, Leased)
    && s'.tables.effects == s.tables.effects
  }

  /** The handler failed: the attempt is closed, as lost if the handler reported a fence rejection. */
  ghost predicate FailedInHandler(s: State, s': State, act: Activity, errorType: string)
    requires act.env.taskId in s.tables.tasks
  {
    && LeaseUsed(s, s', act) && s'.tables.effects == s.tables.effects
    && (errorType == "FenceRejectedError" ==> AttemptLeft(s, s', act, LeaseLost, Leased))
    && (errorType != "FenceRejectedError" ==> AttemptLeft(s, s', act, ClosedFailed, Leased))
  }

  /** The transaction was rolled back: the attempt stays open. */
  ghost predicate RolledBack(s: State, s': State, act: Activity)
    requires act.env.taskId in s.tables.tasks
  {
    LeaseUsed(s, s', act) && s'.tables.effects == s.tables.effects && AttemptLeft(s, s', act, Unfinished, Leased)
  }

  /** The activity has been granted the lease under this fence. */
  function WithLease(s: State, a: nat, act: Activity, fence: nat): State
    requires a < |s.acts|
  {
    s.(leases := Leases.Leases(fence, s.leases.held[act.env.taskId := StoredOwner(act.worker, fence)]),
       grants := s.grants + [Grant(act.env.taskId, act.worker)],
       acts := s.acts[a := s.acts[a].(phase := Holding(fence))])
  }

  predicate CanRecord(tb: Tables, act: Activity) {
    act.env.taskId in tb.tasks && (act.env.taskId, act.env.attempt + 1) !in tb.attempts
  }

  /** The tables with the attempt recorded: its row, and the task leased under its number. */
  function Recorded(tb: Tables, act: Activity, fence: nat): Tables
    requires CanRecord(tb, act)
  {
    var task, n := act.env.taskId, act.env.attempt + 1;
    Tables(tb.tasks[task := tb.tasks[task].(state := Leased, attempt := n)],
           tb.attempts[(task, n) := AttemptRow(act.worker, fence, Unfinished)], tb.effects)
  }

  /** Recording, running and committing under a lease when nobody interferes: the tables, and where the
      activity then stands. */
  function AttemptAlone(tb: Tables, act: Activity, blocked: bool, luck: Luck, fence: nat): (r: (Tables, Phase))
    ensures r.1.Settled?
  {
    if CanRecord(tb, act) && luck.recordApplied && luck.recordReported
    then TransactAlone(Recorded(tb, act, fence), act, blocked, luck, fence)
    else (if CanRecord(tb, act) && luck.recordApplied then Recorded(tb, act, fence) else tb,
          Settled(fence, false, "StoreError: " + luck.error))
  }

  /** The leases once an owner has asked for its own to be deleted. */
  function GivenBack(l: Leases.Leases, act: Activity, fence: nat): Leases.Leases {
    var task := act.env.taskId;
    Leases.Leases(l.counter,
      if task in l.held && l.held[task] == ExpectedOwner(act.worker, fence) then l.held - {task} else l.held)
  }

  /** The transaction of a delivery when nobody interferes. */
  function TransactAlone(tb: Tables, act: Activity, blocked: bool, luck: Luck, fence: nat): (r: (Tables, Phase))
    ensures r.1.Settled?
  {
    var key, broken := EffectKey(act.env), Settled(fence, false, "CommitError: " + luck.error);
    match luck.outcome
    case Failure(errorType, error) => CommitAlone(tb, act, luck, HandlerFailed(fence, errorType, error))
    case Success(result) =>
      if !luck.selectOk then (tb, broken)
      else if key in tb.effects then
        if tb.effects[key].fence > fence then (tb, Settled(fence, false, luck.error))
        else CommitAlone(tb, act, luck, EffectPresent(fence))
      else if !luck.insertOk || blocked then (tb, broken)
      else CommitAlone(tb, act, luck, EffectInserted(fence, result))
  }

  /** The commit at its end. */
  function CommitAlone(tb: Tables, act: Activity, luck: Luck, open: Phase): (r: (Tables, Phase))
    requires open.HandlerFailed? || open.EffectPresent? || open.EffectInserted?
    ensures r.1.Settled?
  {
    (if luck.commitApplied then Closed(tb, act, open) else tb,
     if !(luck.commitApplied && luck.commitReported) then Settled(open.fence, false, "CommitError: " + luck.error)
     else Settled(open.fence, !open.HandlerFailed?, if open.HandlerFailed? then open.error else ""))
  }

  /** What a commit writes: the attempt row is closed by what the activity had reached; the effect row and
      the task state succeeded come only with a fresh effect. */
  function Closed(tb: Tables, act: Activity, p: Phase): Tables {
    var task, n := act.env.taskId, act.env.attempt + 1;
    var outcome := if !p.HandlerFailed? then ClosedSucceeded
      else if p.errorType == "FenceRejectedError" then LeaseLost else ClosedFailed;
    Tables(
      if p.EffectInserted? && task in tb.tasks then tb.tasks[task := tb.tasks[task].(state := Succeeded)] else tb.tasks,
      if (task, n) in tb.attempts then tb.attempts[(task, n) :=
        AttemptRow(tb.attempts[(task, n)].worker, tb.attempts[(task, n)].fence, outcome)] else tb.attempts,
      if p.EffectInserted? then tb.effects[EffectKey(act.env) := EffectRow(task, p.fence, p.result)] else tb.effects)
  }

  /** What a call of execute comes to when nobody interferes and no unhandled call raises. */
  ghost predicate Ended(
    s: State, s': State, act: Activity, blocked: bool, luck: Luck, success: bool, error: string)
  {
    var task, n, fence := act.env.taskId, act.env.attempt + 1, s.leases.counter + 1;
    // only the row of this attempt is touched
    && (forall k :: k in s.tables.attempts && k != (task, n) ==>
          k in s'.tables.attempts && s'.tables.attempts[k] == s.tables.attempts[k])
    // the lease is taken
    && (task in s.leases.held ==>
          !success && error == "LeaseAcquireError: already held" && s'.tables == s.tables && s'.leases == s.leases)
    // the attempt cannot be recorded
    && (task !in s.leases.held && !(CanStart(s, act) && luck.recordApplied) ==>
          !success && error == "StoreError: " + luck.error && s'.tables == s.tables && LeaseUsed(s, s', act))
    // no effect yet: one is written
    && (CanStart(s, act) && Smooth(luck) && luck.outcome.Success? && !blocked && NoRowYet(s, act) ==>
          success && error == "" && Delivered(s, s', act, luck.outcome.result))
    // the effect is there
    && (CanStart(s, act) && Smooth(luck) && luck.outcome.Success? ==>
          forall key :: Places(act.env, key) && key in s.tables.effects ==>
            if s.tables.effects[key].fence <= fence then success && error == "" && Repeated(s, s', act)
            else !success && error == luck.error && RolledBack(s, s', act))
    // the handler fails
    && (CanStart(s, act) && Smooth(luck) && luck.outcome.Failure? ==>
          !success && error == luck.outcome.error && FailedInHandler(s, s', act, luck.outcome.errorType))
    // the transaction breaks
    && (CanStart(s, act) && luck.recordApplied && luck.recordReported &&
        luck.outcome.Success? && !luck.selectOk ==>
          !success && error == "CommitError: " + luck.error && RolledBack(s, s', act))
    && (CanStart(s, act) && luck.recordApplied && luck.recordReported &&
        luck.outcome.Failure? && !luck.commitApplied ==>
          !success && error == "CommitError: " + luck.error && RolledBack(s, s', act))
    && (CanStart(s, act) && luck.recordApplied && luck.recordReported && luck.outcome.Success? &&
        NoRowYet(s, act) && (!luck.insertOk || blocked || !luck.commitApplied) ==>
          !success && error == "CommitError: " + luck.error && RolledBack(s, s', act))
  }

  /** The tables with one attempt closed as lost, whatever it said before. */
  function LostAttempt(tb: Tables, task: TaskId, n: nat): Tables {
    if (task, n) !in tb.attempts then tb
    else Tables(tb.tasks,
                tb.attempts[(task, n) := AttemptRow(
                  tb.attempts[(task, n)].worker, tb.attempts[(task, n)].fence, LeaseLost)], tb.effects)
  }

  /** The tables with the task marked dead, if it has a row. */
  function Died(tb: Tables, task: TaskId): Tables {
    if task !in tb.tasks then tb
    else Tables(tb.tasks[task := tb.tasks[task].(state := Dead)], tb.attempts, tb.effects)
  }

  /** A failed delivery with this error is scheduled again under the next number, as one member of the
      set, or its envelope goes to the DLQ as it is and the task is marked dead. */
  predicate Parks(s: State, s': State, act: Activity, error: string) {
    var again := act.env.(attempt := act.env.attempt + 1);
    && s'.stream == s.stream && s'.leases == s.leases && s'.grants == s.grants && s'.published == s.published
    && (if Backoff.IsRetryable(act.env.policy, ErrorType(error), again.attempt) then
          && again in s'.sched && s'.dlq == s.dlq && s'.tables == s.tables
          && s'.sched == (if again in s.sched then s.sched else s.sched + [again])
        else
          s'.sched == s.sched && s'.dlq == s.dlq + [act.env] && s'.tables == Died(s.tables, act.env.taskId))
  }

  /** From the end of execute to the end of _process_message: a failure is parked, and the message is
      acked. */
  predicate WoundUp(s: State, s': State, a: nat, success: bool, error: string)
    requires a < |s.acts|
  {
    var act := s.acts[a];
    && act.msg < |s.stream|
    && s'.stream == s.stream[act.msg := Entry(s.stream[act.msg].env, Acked)]
    && s'.acts == s.acts[a := act.(phase := Finished)]
    && (if success then s' == s.(stream := s'.stream, acts := s'.acts)
        else Parks(s, s'.(stream := s.stream), act, error))
  }

  /** _process_message from start to end when nobody interferes: execute ended, and then the failure was
      parked, if it was one, and the message acked. */
  predicate ProcessedAlone(
    s: State, s': State, a: nat, luck: Luck, success: bool, ended: State, error: string)
    requires a < |s.acts|
  {
    && (ended, success, error) == ExecuteAlone(s, a, luck)
    && |ended.acts| == |s.acts| && WoundUp(ended, s', a, success, error)
  }

  /** A waiting message in the hands of a worker. */
  function Taken(s: State, worker: string, msg: nat): State
    requires msg < |s.stream|
  {
    s.(stream := s.stream[msg := Entry(s.stream[msg].env, InFlight)],
       acts := s.acts + [Activity(worker, msg, s.stream[msg].env, Received)])
  }

  /** A pending message in the hands of another worker, under the next attempt number; the attempt named
      by the stored envelope is closed as lost if that transaction applies. */
  function TakenOver(s: State, worker: string, msg: nat, closed: bool): State
    requires msg < |s.stream|
  {
    var e := s.stream[msg].env;
    s.(tables := if closed then LostAttempt(s.tables, e.taskId, e.attempt) else s.tables,
       acts := s.acts + [Activity(worker, msg, e.(attempt := e.attempt + 1), Received)])
  }

  /** The same as the code goes: the lease is taken, or it is granted, the attempt recorded, the handler
      run and the transaction tried under it, and it is given back.  `EndsHow` draws the conclusions. */
  function ExecuteAlone(s: State, a: nat, luck: Luck): (State, bool, string)
    requires a < |s.acts|
  {
    var act, fence := s.acts[a], s.leases.counter + 1;
    var task, busy := act.env.taskId, "LeaseAcquireError: already held";
    if task in s.leases.held then
      (s.(acts := s.acts[a := act.(phase := Returned(false, busy))]), false, busy)
    else
      var (tb, p) := AttemptAlone(s.tables, act, Blocked(s, a), luck, fence);
      var leases := Leases.Leases(fence, s.leases.held[task := StoredOwner(act.worker, fence)]);
      (s.(leases := GivenBack(leases, act, fence), grants := s.grants + [Grant(task, act.worker)], tables := tb,
          acts := s.acts[a := act.(phase := Returned(p.success, p.error))]),
       p.success, p.error)
  }

  ghost predicate NoRowYet(s: State, act: Activity) {
    forall key :: Places(act.env, key) ==> key !in s.tables.effects
  }

  /** Activity a moved; the stream, the scheduled set, the DLQ and the other activities did not. */
  predicate OnlyMoved(s: State, s': State, a: nat)
    requires a < |s.acts|
  {
    && s'.stream == s.stream && s'.sched == s.sched && s'.dlq == s.dlq && s'.published == s.published
    && |s'.acts| == |s.acts| && s'.acts == s.acts[a := s.acts[a].(phase := s'.acts[a].phase)]
  }

  /** A step by somebody other than activity a. */
  predicate ByOthers(step: Step, a: nat) {
    IsMove(step) ==> step.a != a
  }

  /** What the others make of these steps: each is taken if it is theirs and possible at its turn. */
  function Others(s: State, steps: seq<Step>, a: nat): State
    decreases steps
  {
    if steps == [] then s
    else if Enabled(s, steps[0]) && ByOthers(steps[0], a) then Others(Next(s, steps[0]), steps[1..], a)
    else Others(s, steps[1..], a)
  }

  lemma OthersLeaveAlone(s: State, step: Step, a: nat)
    requires Enabled(s, step) && ByOthers(step, a) && a < |s.acts|
    ensures a < |Next(s, step).acts| && Next(s, step).acts[a] == s.acts[a]
  {
    if IsMove(step) {
      MoveFrame(s, step);
    } else {
      OtherFrame(s, step);
      assert Next(s, step).acts[..|s.acts|][a] == s.acts[a];
    }
  }

  /** The history is a run from the empty system to this state.  The quantifier keeps the run folded
      except where a lemma asks for it. */
  ghost predicate RunsTo(history: seq<Step>, s: State) {
    forall n :: n == |history| ==> ValidRun(INIT, history[..n]) && Run(INIT, history[..n]) == s
  }

  lemma AsRun(history: seq<Step>, s: State)
    ensures RunsTo(history, s) <==> ValidRun(INIT, history) && Run(INIT, history) == s
  {
    assert history[..|history|] == history;
  }

  lemma RunExtends(history: seq<Step>, s: State, step: Step)
    requires RunsTo(history, s) && Enabled(s, step)
    ensures RunsTo(history + [step], Next(s, step))
  {
    AsRun(history, s);
    RunAppend(INIT, history, step);
    AsRun(history + [step], Next(s, step));
  }

  class System {
    var s: State
    var schedule: seq<seq<Step>>      // what the others do at each await of this call
    ghost var history: seq<Step>

    ghost predicate Valid()
      reads this
    {
      RunsTo(history, s)
    }

    /** Activity a of this system stands at this phase, and is the activity it was. */
    predicate At(a: nat, act: Activity, phase: Phase)
      reads this
    {
      a < |s.acts| && s.acts[a] == act.(phase := phase)
    }

    constructor (schedule: seq<seq<Step>>)
      ensures Valid() && s == INIT && this.schedule == schedule
    {
      s, this.schedule, history := INIT, schedule, [];
      AsRun([], INIT);
    }

    /** One step, whoever takes it. */
    method Do(step: Step)
      requires Valid() && Enabled(s, step)
      modifies this`s, this`history
      ensures Valid() && s == Next(old(s), step) && history == old(history) + [step]
    {
      RunExtends(history, s, step);
      s := Next(s, step);
      history := history + [step];
    }

    /** await: the others run.  Whatever they do, this activity is where it was. */
    method Await(a: nat)
      requires Valid() && a < |s.acts|
      modifies this
      ensures Valid() && a < |s.acts| && s.acts[a] == old(s.acts[a])
      ensures old(schedule) == [] ==> s == old(s) && schedule == []
      ensures old(schedule) != [] ==> schedule == old(schedule)[1..] && s == Others(old(s), old(schedule)[0], a)
    {
      if schedule == [] {
        return;
      }
      var steps := schedule[0];
      schedule := schedule[1..];
      for i := 0 to |steps|
        invariant Valid() && a < |s.acts| && s.acts[a] == old(s.acts[a])
        invariant schedule == old(schedule)[1..] && Others(s, steps[i..], a) == Others(old(s), steps, a)
      {
        assert steps[i..][0] == steps[i] && steps[i..][1..] == steps[i + 1..];
        if Enabled(s, steps[i]) && ByOthers(steps[i], a) {
          OthersLeaveAlone(s, steps[i], a);
          Do(steps[i]);
        }
      }
    }

    /** A step that commits a session: it writes exactly what the session has. */
    method CommitAs(step: Step, session: TaskRepository)
      requires Valid() && Enabled(s, step) && session.tables == TablesAfter(s, step)
      modifies this`s, this`history
      ensures Valid() && s == Next(old(s), step) && s.tables == session.tables && history == old(history) + [step]
    {
      NextTables(s, step);
      Do(step);
    }

    /** An exception ends the call where it stands, without an ack. */
    method Raise(a: nat, ghost act: Activity)
      requires Valid() && a < |s.acts| && s.acts[a] == act.(phase := s.acts[a].phase) && !s.acts[a].phase.Finished?
      modifies this`s, this`history
      ensures Valid() && At(a, act, Finished) && Ack(a) !in history && s == To(old(s), a, Finished)
    {
      UnackedYet(history, s, a);
      Do(Crash(a));
    }

    method AcquireLease(a: nat, ghost act: Activity, luck: Luck) returns (raised: bool, fence: nat)
      requires Valid() && At(a, act, Received)
      modifies this`s, this`history
      ensures Valid()
      ensures raised ==> At(a, act, Finished) && Ack(a) !in history
      ensures !raised ==>
        At(a, act, if fence == 0 then Returned(false, "LeaseAcquireError: already held") else Holding(fence))
      ensures !raised ==> (fence == 0 <==> act.env.taskId in old(s.leases.held))
      ensures !raised && fence == 0 ==> s == To(old(s), a, s.acts[a].phase)
      ensures !raised && fence != 0 ==>
        && fence == old(s.leases.counter) + 1
        && s == To(old(s).(
             leases := Leases.Leases(fence, old(s.leases.held)[act.env.taskId := StoredOwner(act.worker, fence)]),
             grants := old(s.grants) + [Grant(act.env.taskId, act.worker)]), a, Holding(fence))
      ensures luck.faults == map[] ==> !raised
    {
      raised, fence := luck.IsLost(AcquireCall) || luck.IsUnreported(AcquireCall), 0;
      if !luck.IsLost(AcquireCall) {
        Do(Acquire(a));
        fence := if s.acts[a].phase.Holding? then s.acts[a].phase.fence else 0;
      }
      if raised {
        Raise(a, act);
      }
    }

    /** create_attempt and the update to LEASED, in one session. */
    method RecordSession(a: nat, fence: nat) returns (session: TaskRepository, created: bool)
      requires Valid() && a < |s.acts|
      ensures fresh(session)
      ensures created <==> CanRecord(s.tables, s.acts[a])
      ensures session.tables == if created then Recorded(s.tables, s.acts[a], fence) else s.tables
    {
      var env, n := s.acts[a].env, s.acts[a].env.attempt + 1;
      session := new TaskRepository(s.tables);
      created := session.CreateAttempt(env.taskId, n, s.acts[a].worker, fence);
      if created {
        session.UpdateTaskState(env.taskId, Leased, Some(n));
        assert session.tables.tasks == Recorded(s.tables, s.acts[a], fence).tasks;
      }
    }

    /** It succeeds exactly when the task has its row, the number is free, and the transaction applies and
        is reported. */
    method RecordAttempt(a: nat, ghost act: Activity, fence: nat, luck: Luck) returns (ok: bool)
      requires Valid() && At(a, act, Holding(fence))
      modifies this`s, this`history
      ensures Valid()
      ensures At(a, act, if ok then Executing(fence) else Settled(fence, false, "StoreError: " + luck.error))
      ensures ok <==> CanRecord(old(s.tables), act) && luck.recordApplied && luck.recordReported
      ensures s == To(old(s).(tables := s.tables), a, s.acts[a].phase)
      ensures s.tables == if CanRecord(old(s.tables), act) && luck.recordApplied
        then Recorded(old(s.tables), act, fence) else old(s.tables)
    {
      var session, created := RecordSession(a, fence);
      var applied := created && luck.recordApplied;
      ok := applied && luck.recordReported;
      if applied {
        RecordedTables(s.tables, s.acts[a], fence);
        CommitAs(Record(a, applied, ok, luck.error), session);
      } else {
        Do(Record(a, applied, ok, luck.error));
      }
    }

    method RunHandler(a: nat, ghost act: Activity, fence: nat, luck: Luck)
      requires Valid() && At(a, act, Executing(fence))
      modifies this`s, this`history
      ensures Valid()
      ensures At(a, act, match luck.outcome
                         case Success(result) => HandlerDone(fence, result)
                         case Failure(errorType, error) => HandlerFailed(fence, errorType, error))
      ensures s == To(old(s), a, s.acts[a].phase)
    {
      Do(Handle(a, luck.outcome));
    }

    /** The SELECT: an error of the store, no row, a row of no higher fence, or a rejection. */
    method SelectEffect(a: nat, ghost act: Activity, fence: nat, result: string, luck: Luck) returns (absent: bool)
      requires Valid() && At(a, act, HandlerDone(fence, result))
      modifies this`s, this`history
      ensures Valid()
      ensures At(a, act,
        if !luck.selectOk then Settled(fence, false, "CommitError: " + luck.error)
        else if EffectKey(act.env) !in old(s.tables.effects) then EffectAbsent(fence, result)
        else if old(s.tables.effects)[EffectKey(act.env)].fence > fence then Settled(fence, false, luck.error)
        else EffectPresent(fence))
      ensures absent <==> luck.selectOk && EffectKey(act.env) !in old(s.tables.effects)
      ensures s == To(old(s), a, s.acts[a].phase)
    {
      Do(Select(a, luck.selectOk, luck.error));
      absent := s.acts[a].phase.EffectAbsent?;
    }

    /** The INSERT goes through unless the store fails, the row has appeared, or another open
        transaction has the key. */
    method InsertEffect(a: nat, ghost act: Activity, fence: nat, result: string, luck: Luck)
      requires Valid() && At(a, act, EffectAbsent(fence, result))
      modifies this`s, this`history
      ensures Valid()
      ensures At(a, act,
        if luck.insertOk && !old(Blocked(s, a)) && EffectKey(act.env) !in old(s.tables.effects)
        then EffectInserted(fence, result) else Settled(fence, false, "CommitError: " + luck.error))
      ensures s == To(old(s), a, s.acts[a].phase)
    {
      Do(Insert(a, luck.insertOk && !Blocked(s, a), luck.error));
    }

    /** commit_effect: SELECT, then INSERT when nothing was found.  Only a successful INSERT and a
        row of no higher fence leave the transaction open. */
    method CommitEffect(a: nat, ghost act: Activity, fence: nat, result: string, luck: Luck) returns (open: bool)
      requires Valid() && At(a, act, HandlerDone(fence, result))
      modifies this
      ensures Valid() && a < |s.acts| && s.acts[a] == act.(phase := s.acts[a].phase)
      ensures open ==> s.acts[a].phase == EffectPresent(fence) || s.acts[a].phase == EffectInserted(fence, result)
      ensures !open ==> s.acts[a].phase.Settled? && s.acts[a].phase.fence == fence && !s.acts[a].phase.success
      ensures old(schedule) == [] ==> schedule == [] && s == To(old(s), a, s.acts[a].phase)
      ensures old(schedule) == [] ==>
        var effects, key := old(s.tables.effects), EffectKey(act.env);
        At(a, act,
          if !luck.selectOk then Settled(fence, false, "CommitError: " + luck.error)
          else if key in effects then
            if effects[key].fence > fence then Settled(fence, false, luck.error) else EffectPresent(fence)
          else if luck.insertOk && !old(Blocked(s, a)) then EffectInserted(fence, result)
          else Settled(fence, false, "CommitError: " + luck.error))
    {
      var absent := SelectEffect(a, act, fence, result, luck);
      BlockedAlike(old(s), s, a);
      Await(a);
      if absent {
        InsertEffect(a, act, fence, result, luck);
        Await(a);
      }
      open := !s.acts[a].phase.Settled?;
    }

    /** The statements of step 5 of execute, in one session: effect, task state and attempt outcome. */
    method WriteSession(a: nat) returns (session: TaskRepository)
      requires Valid() && a < |s.acts|
      requires s.acts[a].phase.HandlerFailed? || s.acts[a].phase.EffectInserted? || s.acts[a].phase.EffectPresent?
      ensures fresh(session) && session.tables == Committed(s.tables, s.acts[a])
    {
      var env, p, n := s.acts[a].env, s.acts[a].phase, s.acts[a].env.attempt + 1;
      session := new TaskRepository(s.tables);
      match p
      case EffectInserted(fence, result) =>
        KeyIsFree(s, a, history);
        var verdict := session.CommitEffect(EffectKey(env), env.taskId, fence, result);
        session.UpdateTaskState(env.taskId, Succeeded, None);
        assert session.tables.tasks == WithState(s.tables, env.taskId, Succeeded).tasks;
        session.CloseAttempt(env.taskId, n, ClosedSucceeded);
      case EffectPresent(_) =>
        session.CloseAttempt(env.taskId, n, ClosedSucceeded);
      case HandlerFailed(_, errorType, _) =>
        session.CloseAttempt(env.taskId, n, if errorType == "FenceRejectedError" then LeaseLost else ClosedFailed);
    }

    /** COMMIT.  What it writes if it applies, row by row; whether the call counts as a success, and the
        error text it leaves. */
    method CommitSession(a: nat, ghost act: Activity, fence: nat, luck: Luck)
      requires Valid() && a < |s.acts| && s.acts[a] == act.(phase := s.acts[a].phase)
      requires var p := s.acts[a].phase;
        && (p.HandlerFailed? || p.EffectInserted? || p.EffectPresent?) && p.fence == fence
      modifies this`s, this`history
      ensures Valid()
      ensures var p := old(s.acts[a].phase);
        var reported := luck.commitApplied && luck.commitReported;
        At(a, act, Settled(fence, reported && !p.HandlerFailed?,
          if !reported then "CommitError: " + luck.error else if p.HandlerFailed? then p.error else ""))
      ensures s == To(old(s).(tables := s.tables), a, s.acts[a].phase)
      ensures (s.tables, s.acts[a].phase) == CommitAlone(old(s.tables), act, luck, old(s.acts[a].phase))
    {
      ghost var tables, p := s.tables, s.acts[a].phase;
      var step := Commit(a, luck.commitApplied, luck.commitApplied && luck.commitReported, luck.error);
      if luck.commitApplied {
        var session := WriteSession(a);
        CommitAs(step, session);
        CommittedRows(tables, act.(phase := p));
      } else {
        Do(step);
      }
    }

    method ReleaseLease(a: nat, ghost act: Activity, luck: Luck) returns (raised: bool, success: bool, error: string)
      requires Valid() && a < |s.acts| && s.acts[a].phase.Settled? && s.acts[a] == act.(phase := s.acts[a].phase)
      modifies this`s, this`history
      ensures Valid()
      ensures raised ==> At(a, act, Finished) && Ack(a) !in history && !success
      ensures !raised ==> At(a, act, Returned(success, error)) && success == old(s.acts[a].phase.success)
      ensures !raised ==> error == old(s.acts[a].phase.error)
      ensures success ==> EffectKey(act.env) in s.tables.effects
      ensures !raised ==> var task, held := act.env.taskId, old(s.leases.held);
        var own := task in held && held[task] == ExpectedOwner(act.worker, old(s.acts[a].phase.fence));
        s == To(old(s).(leases := Leases.Leases(old(s.leases.counter), if own then held - {task} else held)),
                a, Returned(success, error))
      ensures luck.faults == map[] ==> !raised
    {
      success, error := s.acts[a].phase.success, s.acts[a].phase.error;
      raised := luck.IsLost(ReleaseCall) || luck.IsUnreported(ReleaseCall);
      if !luck.IsLost(ReleaseCall) {
        Do(Release(a));
      }
      if raised {
        success := false;
        Raise(a, act);
      } else {
        AckFacts(s, a, history);
      }
    }

    /** execute: returns whether the effect is in, and the error text; or an exception ends it.  The last
        clause says what it comes to when nobody interferes. */
    method Execute(a: nat, luck: Luck) returns (raised: bool, success: bool, error: string)
      requires Valid() && a < |s.acts| && s.acts[a].phase.Received?
      modifies this
      ensures Valid()
      ensures At(a, old(s.acts[a]), if raised then Finished else Returned(success, error))
      ensures raised ==> Ack(a) !in history && !success
      ensures success ==> EffectKey(old(s.acts[a].env)) in s.tables.effects
      ensures luck.outcome.Failure? ==> !success
      ensures luck.faults == map[] ==> !raised
      ensures old(schedule) == [] && luck.faults == map[] ==>
        schedule == [] && (s, success, error) == ExecuteAlone(old(s), a, luck)
    {
      ghost var act, before := s.acts[a], s;
      var fence: nat;
      success, error := false, "";
      raised, fence := AskForLease(a, act, luck);
      if !raised && fence == 0 {
        error := s.acts[a].phase.error;
      } else if !raised {
        ghost var leased := s;
        raised, success, error := ExecuteLeased(a, act, fence, luck);
        if old(schedule) == [] && luck.faults == map[] {
          AloneFromLease(before, leased, s, act, a, luck, success, error);
        }
      }
    }

    /** Step 1, with the others running before and after. */
    method AskForLease(a: nat, ghost act: Activity, luck: Luck) returns (raised: bool, fence: nat)
      requires Valid() && At(a, act, Received)
      modifies this
      ensures Valid()
      ensures raised ==> At(a, act, Finished) && Ack(a) !in history
      ensures !raised ==>
        At(a, act, if fence == 0 then Returned(false, "LeaseAcquireError: already held") else Holding(fence))
      ensures luck.faults == map[] ==> !raised
      ensures old(schedule) == [] && !raised ==>
        && schedule == [] && (fence == 0 <==> act.env.taskId in old(s.leases.held))
        && (fence == 0 ==> s == To(old(s), a, s.acts[a].phase))
        && (fence != 0 ==> s == WithLease(old(s), a, act, fence) && fence == old(s.leases.counter) + 1)
    {
      Await(a);
      raised, fence := AcquireLease(a, act, luck);
      if !raised {
        Await(a);
      }
    }

    /** execute once it has the lease: record, run, commit, and give the lease back. */
    method ExecuteLeased(a: nat, ghost act: Activity, fence: nat, luck: Luck)
      returns (raised: bool, success: bool, error: string)
      requires Valid() && At(a, act, Holding(fence))
      modifies this
      ensures Valid()
      ensures At(a, act, if raised then Finished else Returned(success, error))
      ensures raised ==> Ack(a) !in history && !success
      ensures success ==> EffectKey(act.env) in s.tables.effects
      ensures luck.outcome.Failure? ==> !success
      ensures luck.faults == map[] ==> !raised
      ensures old(schedule) == [] && luck.faults == map[] ==>
        && schedule == [] && s == To(old(s).(tables := s.tables, leases := s.leases), a, Returned(success, error))
        && s.leases == GivenBack(old(s.leases), act, fence)
        && (s.tables, Settled(fence, success, error)) ==
             AttemptAlone(old(s.tables), act, old(Blocked(s, a)), luck, fence)
    {
      success, error := false, "";
      raised := RecordAndRun(a, act, fence, luck);
      if raised {
        return;
      }
      raised, success, error := ReleaseLease(a, act, luck);
    }

    /** Steps 2 to 5: record the attempt, run the handler, commit. */
    method RecordAndRun(a: nat, ghost act: Activity, fence: nat, luck: Luck) returns (raised: bool)
      requires Valid() && At(a, act, Holding(fence))
      modifies this
      ensures Valid() && a < |s.acts| && s.acts[a] == act.(phase := s.acts[a].phase)
      ensures raised ==> At(a, act, Finished) && Ack(a) !in history
      ensures !raised ==> s.acts[a].phase.Settled? && s.acts[a].phase.fence == fence
      ensures !raised && luck.outcome.Failure? ==> !s.acts[a].phase.success
      ensures luck.faults == map[] ==> !raised
      ensures old(schedule) == [] && !raised ==>
        && schedule == [] && s == To(old(s).(tables := s.tables), a, s.acts[a].phase)
        && (s.tables, s.acts[a].phase) == AttemptAlone(old(s.tables), act, old(Blocked(s, a)), luck, fence)
    {
      ghost var before := s;
      raised := false;
      var recorded := RecordAttempt(a, act, fence, luck);
      Await(a);
      if FirstSessionExit in luck.faults {
        Raise(a, act);
        return true;
      }
      if recorded {
        if old(schedule) == [] {
          BlockedAtStart(before, s, a);
        }
        raised := RunAndCommit(a, act, fence, luck);
      }
    }

    /** Steps 3 to 5 of execute: the handler under its heartbeat, then the transaction. */
    method RunAndCommit(a: nat, ghost act: Activity, fence: nat, luck: Luck) returns (raised: bool)
      requires Valid() && At(a, act, Executing(fence))
      modifies this
      ensures Valid() && a < |s.acts| && s.acts[a] == act.(phase := s.acts[a].phase)
      ensures raised ==> At(a, act, Finished) && Ack(a) !in history
      ensures !raised ==> s.acts[a].phase.Settled? && s.acts[a].phase.fence == fence
      ensures !raised && luck.outcome.Failure? ==> !s.acts[a].phase.success
      ensures luck.faults == map[] ==> !raised
      ensures old(schedule) == [] && !raised ==>
        && schedule == [] && s == To(old(s).(tables := s.tables), a, s.acts[a].phase)
        && (s.tables, s.acts[a].phase) == TransactAlone(old(s.tables), act, old(Blocked(s, a)), luck, fence)
    {
      ghost var before := s;
      RunHandler(a, act, fence, luck);
      Await(a);
      if HeartbeatCall in luck.faults {
        Raise(a, act);
        return true;
      }
      if old(schedule) == [] {
        BlockedAtStart(before, s, a);
      }
      Transact(a, act, fence, luck);
      raised := SecondSessionExit in luck.faults;
      if raised {
        Raise(a, act);
      }
    }

    /** Step 5: the transaction, from what the handler left to its end. */
    method Transact(a: nat, ghost act: Activity, fence: nat, luck: Luck)
      requires Valid() && At(a, act, match luck.outcome
                                     case Success(result) => HandlerDone(fence, result)
                                     case Failure(errorType, error) => HandlerFailed(fence, errorType, error))
      modifies this
      ensures Valid() && a < |s.acts| && s.acts[a] == act.(phase := s.acts[a].phase)
      ensures s.acts[a].phase.Settled? && s.acts[a].phase.fence == fence
      ensures luck.outcome.Failure? ==> !s.acts[a].phase.success
      ensures old(schedule) == [] ==>
        && schedule == [] && s == To(old(s).(tables := s.tables), a, s.acts[a].phase)
        && (s.tables, s.acts[a].phase) == TransactAlone(old(s.tables), act, old(Blocked(s, a)), luck, fence)
    {
      var open := true;
      if luck.outcome.Success? {
        open := CommitEffect(a, act, fence, luck.outcome.result, luck);
      }
      if open {
        CommitSession(a, act, fence, luck);
        Await(a);
      }
    }

    /** _process_message: ack after success; after failure schedule a retry or dead-letter, and only
        then ack.  If everything gets through, the message ends acked and its task is safe without it
        and without everything before it; if a call raises, the call ends without its own ack.  Either
        way the task is still safe, and success means that the effect is committed.  If nobody
        interferes, execute ended at `ended` with `error`, and the last clause says what came after. */
    method ProcessMessage(a: nat, luck: Luck)
      returns (acked: bool, success: bool, ghost ended: State, ghost error: string)
      requires Valid() && a < |s.acts| && s.acts[a].phase.Received?
      modifies this
      ensures Valid() && At(a, old(s.acts[a]), Finished)
      ensures acked <==> Ack(a) in history
      ensures success ==> EffectKey(s.acts[a].env) in s.tables.effects
      ensures s.acts[a].msg < |s.stream| && s.acts[a].env.taskId in s.published
      ensures SafeFrom(s, s.acts[a].env.taskId, if acked then s.acts[a].msg + 1 else 0)
      ensures acked ==> s.stream[s.acts[a].msg].status.Acked?
      ensures luck.faults == map[] ==> acked
      ensures old(schedule) == [] && luck.faults == map[] ==>
        schedule == [] && ProcessedAlone(old(s), s, a, luck, success, ended, error)
    {
      ghost var act := s.acts[a];
      var raised: bool, text: string;
      raised, success, text := Execute(a, luck);
      ended, error, acked := s, text, false;
      if raised {
        TaskIsSafe(s, a, history);
      } else {
        acked := WindUp(a, act, success, text, luck);
      }
    }

    /** What _process_message does with the result of execute. */
    method WindUp(a: nat, ghost act: Activity, success: bool, error: string, luck: Luck) returns (acked: bool)
      requires Valid() && At(a, act, Returned(success, error))
      modifies this
      ensures Valid() && At(a, act, Finished)
      ensures acked <==> Ack(a) in history
      ensures success ==> EffectKey(act.env) in s.tables.effects
      ensures act.msg < |s.stream| && act.env.taskId in s.published
      ensures SafeFrom(s, act.env.taskId, if acked then act.msg + 1 else 0)
      ensures acked ==> s.stream[act.msg].status.Acked?
      ensures luck.faults == map[] ==> acked
      ensures old(schedule) == [] && luck.faults == map[] ==> schedule == [] && WoundUp(old(s), s, a, success, error)
    {
      acked := false;
      var raised := ParkFailure(a, act, success, error, luck);
      if !raised {
        AckFacts(s, a, history);
        acked := AckMessage(a, act, success, luck);
      }
      if !acked {
        TaskIsSafe(s, a, history);
      }
    }

    /** A success needs nothing; a failure is handed on.  The others run before and after. */
    method ParkFailure(a: nat, ghost act: Activity, success: bool, error: string, luck: Luck) returns (raised: bool)
      requires Valid() && At(a, act, Returned(success, error))
      modifies this
      ensures Valid()
      ensures At(a, act, if raised then Finished else if success then Returned(true, error) else Handled)
      ensures raised ==> Ack(a) !in history && !success
      ensures luck.faults == map[] ==> !raised
      ensures old(schedule) == [] && !raised ==> schedule == []
      ensures old(schedule) == [] && success ==> s == old(s)
      ensures old(schedule) == [] && !success && !raised ==>
        Parks(old(s), s, act, error) && s.acts == old(s.acts)[a := act.(phase := Handled)]
    {
      raised := false;
      Await(a);
      if !success {
        raised := HandOn(a, act, error, luck);
        if !raised {
          Await(a);
        }
      }
    }

    /** One message of the poll loop: XREADGROUP hands it over, then it is processed. */
    method PollMessage(worker: string, msg: nat, luck: Luck)
      returns (acked: bool, success: bool, ghost ended: State, ghost error: string)
      requires Valid() && msg < |s.stream| && s.stream[msg].status.Waiting?
      modifies this
      ensures Valid() && msg < |s.stream|
      ensures success ==> EffectKey(old(s.stream[msg].env)) in s.tables.effects
      ensures old(s.stream[msg].env.taskId) in s.published
      ensures SafeFrom(s, old(s.stream[msg].env.taskId), if acked then msg + 1 else 0)
      ensures acked ==> s.stream[msg].status.Acked?
      ensures luck.faults == map[] ==> acked
      ensures old(schedule) == [] && luck.faults == map[] ==>
        ProcessedAlone(Taken(old(s), worker, msg), s, old(|s.acts|), luck, success, ended, error)
    {
      var a := |s.acts|;
      Do(Deliver(worker, msg));
      acked, success, ended, error := ProcessMessage(a, luck);
    }

    /** One message of the reclaim loop: XAUTOCLAIM hands it over, the attempt named by the stored
        envelope is closed as lost, and it is processed with the attempt number one higher.  If not even
        a session can be opened, the loop drops the message. */
    method ReclaimMessage(worker: string, msg: nat, closed: bool, luck: Luck)
      returns (acked: bool, success: bool, ghost ended: State, ghost error: string)
      requires Valid() && msg < |s.stream| && s.stream[msg].status.InFlight?
      modifies this
      ensures Valid() && msg < |s.stream|
      ensures success ==> EffectKey(old(s.stream[msg].env)) in s.tables.effects
      ensures old(s.stream[msg].env.taskId) in s.published
      ensures SafeFrom(s, old(s.stream[msg].env.taskId), if acked then msg + 1 else 0)
      ensures acked ==> s.stream[msg].status.Acked?
      ensures luck.faults == map[] ==> acked
      ensures old(schedule) == [] && luck.faults == map[] ==>
        ProcessedAlone(TakenOver(old(s), worker, msg, closed), s, old(|s.acts|), luck, success, ended, error)
    {
      var a, dropped := AdoptMessage(worker, msg, closed, luck);
      acked, success, ended, error := false, false, s, "";
      if dropped {
        TaskIsSafe(s, a, history);
        return;
      }
      MessageOfActivity(s, a, history);
      acked, success, ended, error := ProcessMessage(a, luck);
    }

    method AdoptMessage(worker: string, msg: nat, closed: bool, luck: Luck) returns (a: nat, dropped: bool)
      requires Valid() && msg < |s.stream| && s.stream[msg].status.InFlight?
      modifies this
      ensures Valid() && a == old(|s.acts|) && dropped == (CloseCall in luck.faults)
      ensures At(a, Activity(worker, msg, NextAttempt(old(s.stream[msg].env)), Adopted),
                 if dropped then Finished else Received)
      ensures old(schedule) == [] && !dropped ==> schedule == [] && s == TakenOver(old(s), worker, msg, closed)
    {
      a := |s.acts|;
      Do(Reclaim(worker, msg));
      ghost var act := s.acts[a];
      Await(a);
      dropped := CloseCall in luck.faults;
      if dropped {
        Raise(a, act);
      } else {
        CloseLostAttempt(a, act, closed);
      }
    }

    /** close_attempt of the reclaim loop, in a session of its own: the row numbered by the stored
        envelope, which is one below the activity's. */
    method CloseLostAttempt(a: nat, ghost act: Activity, closed: bool)
      requires Valid() && At(a, act, Adopted) && act.env.attempt >= 1
      modifies this`s, this`history
      ensures Valid() && At(a, act, Received)
      ensures s == To(old(s).(tables := s.tables), a, Received)
      ensures s.tables ==
        if closed then LostAttempt(old(s.tables), act.env.taskId, act.env.attempt - 1) else old(s.tables)
    {
      if closed {
        var session := new TaskRepository(s.tables);
        session.CloseAttempt(s.acts[a].env.taskId, s.acts[a].env.attempt - 1, LeaseLost);
        CommitAs(CloseLost(a, true), session);
      } else {
        Do(CloseLost(a, false));
      }
    }

    /** Schedule a retry under the next number, or dead-letter the message and mark its task dead. */
    method HandOn(a: nat, ghost act: Activity, error: string, luck: Luck) returns (raised: bool)
      requires Valid() && At(a, act, Returned(false, error))
      modifies this
      ensures Valid()
      ensures raised ==> At(a, act, Finished) && Ack(a) !in history
      ensures !raised ==> At(a, act, Handled)
      ensures luck.faults == map[] ==> !raised
      ensures old(schedule) == [] && !raised ==> schedule == [] && Parks(old(s), s, act, error)
      ensures old(schedule) == [] && !raised ==> s.acts == old(s.acts)[a := act.(phase := Handled)]
    {
      raised := luck.IsLost(ParkCall) || luck.IsUnreported(ParkCall);
      if !luck.IsLost(ParkCall) {
        Do(if WillRetry(s.acts[a]) then Schedule(a) else Protocol.DeadLetter(a));
      }
      if !raised {
        Await(a);
        if s.acts[a].phase.DeadLettered? {
          raised := MarkTaskDead(a, act, luck);
          return;
        }
      }
      if raised {
        Raise(a, act);
      }
    }

    /** update_task_state(DEAD) and commit.  If it does not raise, the row says dead, if there is one. */
    method MarkTaskDead(a: nat, ghost act: Activity, luck: Luck) returns (raised: bool)
      requires Valid() && At(a, act, DeadLettered)
      modifies this`s, this`history
      ensures Valid()
      ensures raised ==> At(a, act, Finished) && Ack(a) !in history
      ensures !raised ==> At(a, act, Handled)
      ensures luck.faults == map[] ==> !raised
      ensures !raised ==> act.env.taskId in s.tables.tasks ==> s.tables.tasks[act.env.taskId].state == Dead
      ensures s == To(old(s).(tables := s.tables), a, s.acts[a].phase)
      ensures !raised ==> s.tables == Died(old(s.tables), act.env.taskId)
    {
      raised := luck.IsLost(MarkCall) || luck.IsUnreported(MarkCall);
      if !luck.IsLost(MarkCall) {
        var session := new TaskRepository(s.tables);
        session.UpdateTaskState(s.acts[a].env.taskId, Dead, None);
        assert session.tables.tasks == Died(s.tables, s.acts[a].env.taskId).tasks;
        CommitAs(MarkDead(a), session);
      }
      if raised {
        Raise(a, act);
      }
    }

    /** The ack itself may be lost, or done and only not reported. */
    method AckMessage(a: nat, ghost act: Activity, success: bool, luck: Luck) returns (acked: bool)
      requires Valid() && a < |s.acts| && s.acts[a] == act.(phase := s.acts[a].phase)
      requires if success then s.acts[a].phase.Returned? && s.acts[a].phase.success else s.acts[a].phase.Handled?
      modifies this`s, this`history
      ensures Valid() && At(a, act, Finished)
      ensures acked <==> Ack(a) in history
      ensures s.tables == old(s.tables)
      ensures acked ==> act.msg < |s.stream| && s.stream[act.msg].status.Acked?
      ensures acked ==> act.env.taskId in s.published && SafeFrom(s, act.env.taskId, act.msg + 1)
      ensures luck.faults == map[] ==> acked
      ensures acked ==> act.msg < |old(s.stream)| && s == To(old(s).(
        stream := old(s.stream)[act.msg := Entry(old(s.stream)[act.msg].env, Acked)]), a, Finished)
    {
      acked := !luck.IsLost(AckCall);
      if acked {
        AckFacts(s, a, history);
        SafeAfterAck(s, a, history);
        Do(Ack(a));
      } else {
        Raise(a, act);
      }
    }
  }

  lemma MessageOfActivity(s: State, a: nat, history: seq<Step>)
    requires RunsTo(history, s) && a < |s.acts|
    ensures s.acts[a].msg < |s.stream| && s.stream[s.acts[a].msg].env.taskId == s.acts[a].env.taskId
  {
    AsRun(history, s);
    DeliveryRun(INIT, history);
  }

  /** A delivery that can succeed does: its one new effect row names the task, the granted fence and the
      result, the task says succeeded, the attempt is closed as succeeded, and the message is acked. */
  lemma UndisturbedSuccess(
    s: State, s': State, a: nat, luck: Luck, success: bool, ended: State, error: string, result: string)
    requires a < |s.acts| && ProcessedAlone(s, s', a, luck, success, ended, error)
    requires CanStart(s, s.acts[a]) && NoRowYet(s, s.acts[a])
    requires forall b :: 0 <= b < |s.acts| && b != a && s.acts[b].phase.EffectInserted? ==>
      forall key :: Places(s.acts[b].env, key) ==> !Places(s.acts[a].env, key)
    requires Smooth(luck) && luck.outcome == Success(result)
    ensures success
    ensures var act, fence := s.acts[a], s.leases.counter + 1;
      var task, n := act.env.taskId, act.env.attempt + 1;
      && (forall key :: Places(act.env, key) ==>
            s'.tables.effects == s.tables.effects[key := EffectRow(task, fence, result)])
      && s'.tables.tasks == s.tables.tasks[task := s.tables.tasks[task].(state := Succeeded, attempt := n)]
      && s'.tables.attempts == s.tables.attempts[(task, n) := AttemptRow(act.worker, fence, ClosedSucceeded)]
      && act.msg < |s.stream| && s'.stream == s.stream[act.msg := Entry(s.stream[act.msg].env, Acked)]
      && s'.sched == s.sched && s'.dlq == s.dlq
  {
    forall b | 0 <= b < |s.acts| && b != a && s.acts[b].phase.EffectInserted?
      ensures EffectKey(s.acts[b].env) != EffectKey(s.acts[a].env)
    {
      OnePlace(s.acts[b].env, EffectKey(s.acts[b].env));
      OnePlace(s.acts[a].env, EffectKey(s.acts[a].env));
    }
    EndsHow(s, a, luck);
  }

  /** A delivery whose handler fails: no effect, the attempt closed as failed, and the message acked after
      either a retry under the next number was scheduled or the envelope went to the DLQ as it is and the
      task was marked dead. */
  lemma UndisturbedFailure(
    s: State, s': State, a: nat, luck: Luck, success: bool, ended: State, error: string,
    errorType: string, text: string)
    requires a < |s.acts| && ProcessedAlone(s, s', a, luck, success, ended, error)
    requires CanStart(s, s.acts[a]) && Smooth(luck) && luck.outcome == Failure(errorType, text)
    requires errorType != "FenceRejectedError"
    ensures !success && s'.tables.effects == s.tables.effects
    ensures var act, fence := s.acts[a], s.leases.counter + 1;
      var task, n := act.env.taskId, act.env.attempt + 1;
      var again := act.env.(attempt := n);
      var retried := Backoff.IsRetryable(act.env.policy, ErrorType(text), n);
      && s'.tables.attempts == s.tables.attempts[(task, n) := AttemptRow(act.worker, fence, ClosedFailed)]
      && s'.tables.tasks == s.tables.tasks[task :=
           s.tables.tasks[task].(state := if retried then Leased else Dead, attempt := n)]
      && act.msg < |s.stream| && s'.stream == s.stream[act.msg := Entry(s.stream[act.msg].env, Acked)]
      && s'.sched == (if retried && again !in s.sched then s.sched + [again] else s.sched)
      && s'.dlq == (if retried then s.dlq else s.dlq + [act.env])
  {
    EndsHow(s, a, luck);
  }

  /** A reclaim with its first transaction applied leaves the attempt that the stored envelope names closed
      as lost, whatever the delivery comes to. */
  lemma UndisturbedReclaim(
    s: State, s': State, worker: string, msg: nat, luck: Luck, success: bool, ended: State, error: string)
    requires msg < |s.stream|
    requires ProcessedAlone(TakenOver(s, worker, msg, true), s', |s.acts|, luck, success, ended, error)
    ensures var e := s.stream[msg].env;
      (e.taskId, e.attempt) in s.tables.attempts ==>
        && (e.taskId, e.attempt) in s'.tables.attempts
        && s'.tables.attempts[(e.taskId, e.attempt)] == s.tables.attempts[(e.taskId, e.attempt)].(outcome := LeaseLost)
  {
    EndsHow(TakenOver(s, worker, msg, true), |s.acts|, luck);
  }

  lemma OnePlace(e: Envelope, key: string)
    ensures Places(e, key) <==> key == EffectKey(e)
  {
  }

  lemma EndsBusy(s: State, s': State, act: Activity, blocked: bool, luck: Luck)
    requires act.env.taskId in s.leases.held && s'.tables == s.tables && s'.leases == s.leases
    ensures Ended(s, s', act, blocked, luck, false, "LeaseAcquireError: already held")
  {
  }

  lemma EndsUnrecorded(s: State, s': State, act: Activity, blocked: bool, luck: Luck)
    requires act.env.taskId !in s.leases.held && LeaseUsed(s, s', act)
    requires !(CanStart(s, act) && luck.recordApplied && luck.recordReported)
    requires s'.tables ==
      if CanRecord(s.tables, act) && luck.recordApplied then Recorded(s.tables, act, s.leases.counter + 1) else s.tables
    ensures Ended(s, s', act, blocked, luck, false, "StoreError: " + luck.error)
  {
  }

  lemma EndsFailed(
    s: State, s': State, act: Activity, blocked: bool, luck: Luck, p: Phase)
    requires CanStart(s, act) && luck.recordApplied && luck.recordReported && LeaseUsed(s, s', act) && p.Settled?
    requires var fence := s.leases.counter + 1;
      (s'.tables, p) == TransactAlone(Recorded(s.tables, act, fence), act, blocked, luck, fence)
    requires luck.outcome.Failure?
    ensures Ended(s, s', act, blocked, luck, p.success, p.error)
  {
  }

  lemma EndsStarted(
    s: State, s': State, act: Activity, blocked: bool, luck: Luck, p: Phase)
    requires CanStart(s, act) && luck.recordApplied && luck.recordReported && LeaseUsed(s, s', act) && p.Settled?
    requires var fence := s.leases.counter + 1;
      (s'.tables, p) == TransactAlone(Recorded(s.tables, act, fence), act, blocked, luck, fence)
    requires luck.outcome.Success?
    ensures Ended(s, s', act, blocked, luck, p.success, p.error)
  {
    forall key ensures Places(act.env, key) <==> key == EffectKey(act.env) { OnePlace(act.env, key); }
  }

  lemma AloneFromLease(
    s: State, s1: State, s': State, act: Activity, a: nat, luck: Luck, success: bool, error: string)
    requires act.env.taskId !in s.leases.held && a < |s.acts| && s.acts[a] == act
    requires var fence := s.leases.counter + 1;
      && s1 == WithLease(s, a, act, fence)
      && s' == To(s1.(tables := s'.tables, leases := s'.leases), a, Returned(success, error))
      && s'.leases == GivenBack(s1.leases, act, fence)
      && (s'.tables, Settled(fence, success, error)) == AttemptAlone(s1.tables, act, Blocked(s1, a), luck, fence)
    ensures (s', success, error) == ExecuteAlone(s, a, luck)
  {
    BlockedAtStart(s, s1, a);
    assert s'.acts == s.acts[a := act.(phase := Returned(success, error))];
  }

  lemma LeaseIsUsed(s: State, s': State, act: Activity)
    requires act.env.taskId !in s.leases.held
    requires var fence := s.leases.counter + 1;
      && s'.grants == s.grants + [Grant(act.env.taskId, act.worker)]
      && s'.leases == GivenBack(
           Leases.Leases(fence, s.leases.held[act.env.taskId := StoredOwner(act.worker, fence)]), act, fence)
    ensures LeaseUsed(s, s', act)
  {
    var task, fence, held := act.env.taskId, s.leases.counter + 1, s.leases.held;
    LeaseGivenBack(act, fence, held);
    assert held[task := StoredOwner(act.worker, fence)][task] == StoredOwner(act.worker, fence);
    assert held[task := StoredOwner(act.worker, fence)].Keys == held.Keys + {task};
  }

  /** What a call of execute comes to, case by case. */
  lemma EndsHow(s: State, a: nat, luck: Luck)
    requires a < |s.acts|
    ensures var (s', success, error) := ExecuteAlone(s, a, luck);
      OnlyMoved(s, s', a) && Ended(s, s', s.acts[a], Blocked(s, a), luck, success, error)
  {
    var act, blocked := s.acts[a], Blocked(s, a);
    var (s', success, error) := ExecuteAlone(s, a, luck);
    if act.env.taskId in s.leases.held {
      EndsBusy(s, s', act, blocked, luck);
    } else {
      LeaseIsUsed(s, s', act);
      if CanRecord(s.tables, act) && luck.recordApplied && luck.recordReported {
        var p := Settled(s.leases.counter + 1, success, error);
        if luck.outcome.Success? {
          EndsStarted(s, s', act, blocked, luck, p);
        } else {
          EndsFailed(s, s', act, blocked, luck, p);
        }
      } else {
        EndsUnrecorded(s, s', act, blocked, luck);
      }
    }
  }

  lemma RecordedTables(tb: Tables, act: Activity, fence: nat)
    requires CanRecord(tb, act)
    ensures var task, n := act.env.taskId, act.env.attempt + 1;
      WithLeased(WithAttempt(tb, task, n, act.worker, fence), task, n) == Recorded(tb, act, fence)
  {
  }

  /** Giving the lease back restores what was held, while Lua prints the fence in plain decimals. */
  lemma LeaseGivenBack(act: Activity, fence: nat, held: map<TaskId, string>)
    requires act.env.taskId !in held
    ensures var task, owner := act.env.taskId, StoredOwner(act.worker, fence);
      && (owner == ExpectedOwner(act.worker, fence) <==> fence < LUA_PLAIN_LIMIT)
      && held[task := owner] - {task} == held
  {
    OwnerMatchesExactly(act.worker, fence, act.worker, fence);
  }

  /** Whether another transaction has the key is the same at the start as when the handler runs. */
  lemma BlockedAtStart(s: State, s': State, a: nat)
    requires a < |s.acts| && |s'.acts| == |s.acts| && s'.acts == s.acts[a := s.acts[a].(phase := s'.acts[a].phase)]
    ensures Blocked(s', a) <==> Blocked(s, a)
  {
    assert forall b :: 0 <= b < |s.acts| && b != a ==> s'.acts[b] == s.acts[b];
    if Blocked(s, a) {
      var b :| 0 <= b < |s.acts| && b != a && s.acts[b].phase.EffectInserted? &&
        EffectKey(s.acts[b].env) == EffectKey(s.acts[a].env);
      assert s'.acts[b].phase.EffectInserted?;
    }
  }

  lemma BlockedAlike(s: State, s': State, a: nat)
    requires a < |s.acts| && a < |s'.acts| && s' == To(s, a, s'.acts[a].phase)
    ensures Blocked(s', a) <==> Blocked(s, a)
  {
    assert forall b :: 0 <= b < |s.acts| && b != a ==> s'.acts[b] == s.acts[b];
    if Blocked(s, a) {
      var b :| 0 <= b < |s.acts| && b != a && s.acts[b].phase.EffectInserted? &&
        EffectKey(s.acts[b].env) == EffectKey(s.acts[a].env);
      assert s'.acts[b].phase.EffectInserted?;
    }
  }

  lemma CommittedRows(tb: Tables, act: Activity)
    requires act.phase.HandlerFailed? || act.phase.EffectInserted? || act.phase.EffectPresent?
    ensures Committed(tb, act) == Closed(tb, act, act.phase)
  {
  }

  lemma {:induction false} FinishedStays(s: State, steps: seq<Step>, a: nat)
    requires ValidRun(s, steps) && a < |s.acts| && s.acts[a].phase.Finished?
    ensures a < |Run(s, steps).acts| && Run(s, steps).acts[a].phase.Finished?
    decreases steps
  {
    if steps != [] {
      var s' := Next(s, steps[0]);
      if IsMove(steps[0]) {
        MoveFrame(s, steps[0]);
      } else {
        OtherFrame(s, steps[0]);
        assert s'.acts[..|s.acts|][a] == s.acts[a];
      }
      FinishedStays(s', steps[1..], a);
    }
  }

  /** An activity that has not come to its end has not acked. */
  lemma {:induction false} UnfinishedIsUnacked(s: State, steps: seq<Step>, a: nat)
    requires ValidRun(s, steps) && a < |Run(s, steps).acts| && !Run(s, steps).acts[a].phase.Finished?
    ensures Ack(a) !in steps
    decreases steps
  {
    if steps != [] {
      if steps[0] == Ack(a) {
        FinishedStays(Next(s, steps[0]), steps[1..], a);
        assert false;
      }
      UnfinishedIsUnacked(Next(s, steps[0]), steps[1..], a);
    }
  }

  lemma UnackedYet(history: seq<Step>, s: State, a: nat)
    requires RunsTo(history, s) && a < |s.acts| && !s.acts[a].phase.Finished?
    ensures Ack(a) !in history
  {
    AsRun(history, s);
    UnfinishedIsUnacked(INIT, history, a);
  }

  /** What an open INSERT relies on at its commit. */
  lemma KeyIsFree(s: State, a: nat, history: seq<Step>)
    requires RunsTo(history, s)
    requires a < |s.acts| && s.acts[a].phase.EffectInserted?
    ensures EffectKey(s.acts[a].env) !in s.tables.effects
  {
    AsRun(history, s);
    DeliveryRun(INIT, history);
    assert Key(s, a) == EffectKey(s.acts[a].env);
  }

  lemma TaskIsSafe(s: State, a: nat, history: seq<Step>)
    requires RunsTo(history, s) && a < |s.acts|
    ensures s.acts[a].msg < |s.stream|
    ensures s.acts[a].env.taskId in s.published && SafeFrom(s, s.acts[a].env.taskId, 0)
  {
    AsRun(history, s);
    DeliveryRun(INIT, history);
    assert KnownUpTo(s.published, s.acts[a].env);
  }

  /** What every run guarantees about an activity that is about to ack. */
  lemma AckFacts(s: State, a: nat, history: seq<Step>)
    requires RunsTo(history, s) && a < |s.acts|
    ensures s.acts[a].msg < |s.stream|
    ensures s.acts[a].phase.Returned? && s.acts[a].phase.success ==> EffectKey(s.acts[a].env) in s.tables.effects
  {
    AsRun(history, s);
    DeliveryRun(INIT, history);
    assert Key(s, a) == EffectKey(s.acts[a].env);
  }

  lemma SafeAfterAck(s: State, a: nat, history: seq<Step>)
    requires RunsTo(history, s) && Enabled(s, Ack(a))
    ensures var s', act := Next(s, Ack(a)), s.acts[a];
      act.env.taskId in s'.published && SafeFrom(s', act.env.taskId, act.msg + 1)
  {
    AsRun(history, s);
    DeliveryRun(INIT, history);
    assert KnownUpTo(s.published, s.acts[a].env);
    AckFacts(s, a, history);
    assert SafeFrom(s, s.acts[a].env.taskId, s.acts[a].msg + 1);
    AckKeepsSafe(s, a, s.acts[a].env.taskId, s.acts[a].msg + 1);
  }
}
