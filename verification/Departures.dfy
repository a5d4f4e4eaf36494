/** Two more places where the code does less than its documents say: the reclaimer does not close the
    attempt it takes over, and a task that has succeeded does not stay succeeded. */
module Departures {
  import opened Envelopes
  import opened Store
  import opened Protocol
  import opened Effects
  import opened Deliveries
  import opened Provenance
  import opened Zombies
  import Backoff

  /** Attempt numbers of deliveries: the one stored with the message or, once reclaimed, one more. */
  ghost predicate NumberInv(s: State) {
    forall a :: 0 <= a < |s.acts| ==> Numbered(s.stream, s.acts[a])
  }

  predicate Numbered(stream: seq<Entry>, act: Activity) {
    && act.msg < |stream|
    && stream[act.msg].env.taskId == act.env.taskId
    && stream[act.msg].env.attempt <= act.env.attempt <= stream[act.msg].env.attempt + 1
    && (act.phase.Adopted? ==> act.env.attempt == stream[act.msg].env.attempt + 1)
  }

  lemma MessagesStay(s: State, step: Step)
    requires Enabled(s, step)
    ensures |s.stream| <= |Next(s, step).stream|
    ensures forall i :: 0 <= i < |s.stream| ==> Next(s, step).stream[i].env == s.stream[i].env
  {
    if IsMove(step) { MoveFrame(s, step); } else { OtherFrame(s, step); }
  }

  lemma NeverAdoptedAgain(s: State, step: Step)
    requires Enabled(s, step) && IsMove(step)
    ensures !Next(s, step).acts[step.a].phase.Adopted?
  {
  }

  lemma NumberKept(s: State, s': State, act: Activity, phase: Phase)
    requires Numbered(s.stream, act) && !phase.Adopted?
    requires |s.stream| <= |s'.stream|
    requires forall i :: 0 <= i < |s.stream| ==> s'.stream[i].env == s.stream[i].env
    ensures Numbered(s'.stream, act) && Numbered(s'.stream, act.(phase := phase))
  {
  }

  lemma NumberJoined(s: State, step: Step)
    requires Enabled(s, step) && !IsMove(step) && |Next(s, step).acts| > |s.acts|
    ensures Numbered(Next(s, step).stream, Next(s, step).acts[|s.acts|])
  {
  }

  lemma NumberStep(s: State, step: Step)
    requires NumberInv(s) && Enabled(s, step)
    ensures NumberInv(Next(s, step))
  {
    var s' := Next(s, step);
    MessagesStay(s, step);
    if IsMove(step) { MoveFrame(s, step); NeverAdoptedAgain(s, step); } else { OtherFrame(s, step); }
    forall a | 0 <= a < |s'.acts| ensures Numbered(s'.stream, s'.acts[a]) {
      if a == |s.acts| {
        NumberJoined(s, step);
      } else if IsMove(step) && a == step.a {
        NumberKept(s, s', s.acts[a], s'.acts[a].phase);
      } else {
        assert s'.acts[a] == s'.acts[..|s.acts|][a] == s.acts[a];
        NumberKept(s, s', s.acts[a], Finished);
      }
    }
  }

  lemma {:induction false} NumberRun(s: State, steps: seq<Step>)
    requires NumberInv(s) && ValidRun(s, steps)
    ensures NumberInv(Run(s, steps))
    decreases steps
  {
    if steps != [] {
      NumberStep(s, steps[0]);
      NumberRun(Next(s, steps[0]), steps[1..]);
    }
  }

  /** Closing the lost attempt of a reclaimed message: no row of any delivery of this message, past or
      present, is touched.  What is set to lease_lost, whatever it said before, is row number `stored`,
      the attempt whose retry this message is. */
  lemma ReclaimClosesAnOlderRow(s: State, a: nat, b: nat)
    requires Reachable(s) && Enabled(s, CloseLost(a, true))
    requires b < |s.acts| && s.acts[b].msg == s.acts[a].msg
    ensures s.acts[a].msg < |s.stream|
    ensures var task, stored := s.acts[a].env.taskId, s.stream[s.acts[a].msg].env.attempt;
      var before, after := s.tables.attempts, Next(s, CloseLost(a, true)).tables.attempts;
      var own := (s.acts[b].env.taskId, s.acts[b].env.attempt + 1);
      && after.Keys == before.Keys
      && (own in before ==> after[own] == before[own])
      && (forall k :: k in before && k != (task, stored) ==> after[k] == before[k])
      && ((task, stored) in before ==> after[(task, stored)] == before[(task, stored)].(outcome := LeaseLost))
  {
    var steps :| ValidRun(INIT, steps) && Run(INIT, steps) == s;
    NumberRun(INIT, steps);
    assert Numbered(s.stream, s.acts[a]) && Numbered(s.stream, s.acts[b]);
  }

  /** In particular, when a first delivery is lost its row is still open after the reclaim. */
  lemma LostAttemptStaysOpen(e: Envelope, w: string, r: string, w': string) returns (s: State)
    requires e.attempt == 0
    ensures Reachable(s) && |s.acts| == 2 && s.acts[1].worker == w' && s.acts[1].phase == Holding(2)
    ensures (e.taskId, 1) in s.tables.attempts && s.tables.attempts[(e.taskId, 1)] == AttemptRow(w, 1, Unfinished)
  {
    SupersededFollows(e, w, r, w');
    s := Superseded(e, w, r, w');
    SubmittedIsReachable(e);
    ReachableVia(Submitted(e), s);
  }

  /** A first attempt that failed and was closed as failed ... */
  function FailedOnce(e: Envelope, w: string): Tables {
    Tables(map[e.taskId := TaskRow(e.queue, e.dedupKey, Leased, 1)],
           map[(e.taskId, 1) := AttemptRow(w, 1, ClosedFailed)], map[])
  }

  lemma IsExecuting(e: Envelope, w: string) returns (s: State)
    requires e.attempt == 0
    ensures Reachable(s) && s == Stalled(e, w, "").(acts := [Activity(w, 0, e, Executing(1))])
  {
    s := Stalled(e, w, "").(acts := [Activity(w, 0, e, Executing(1))]);
    ExecutingFollows(e, w);
    SubmittedIsReachable(e);
    ReachableVia(Submitted(e), s);
  }

  lemma HandlerRaises(e: Envelope, w: string, error: string) returns (s: State)
    requires e.attempt == 0
    ensures Reachable(s)
    ensures s == Stalled(e, w, "").(acts := [Activity(w, 0, e, HandlerFailed(1, "", error))])
  {
    var s0 := IsExecuting(e, w);
    ReachableNext(s0, Handle(0, Failure("", error)));
    s := Next(s0, Handle(0, Failure("", error)));
  }

  lemma FailsOnce(e: Envelope, w: string, error: string) returns (s: State)
    requires e.attempt == 0
    ensures Reachable(s) && s.tables == FailedOnce(e, w)
    ensures s.acts == [Activity(w, 0, e, Settled(1, false, error))]
    ensures s.stream == [Entry(e, InFlight)] && s.sched == []
  {
    var s0 := HandlerRaises(e, w, error);
    assert Committed(s0.tables, s0.acts[0]) == FailedOnce(e, w);
    ReachableNext(s0, Commit(0, true, true, ""));
    s := Next(s0, Commit(0, true, true, ""));
  }

  lemma RetriedOnce(e: Envelope, w: string, error: string) returns (s: State)
    requires e.attempt == 0 && Backoff.IsRetryable(e.policy, ErrorType(error), 1)
    ensures Reachable(s) && s.tables == FailedOnce(e, w) && |s.acts| == 1
    ensures s.stream == [Entry(e, InFlight), Entry(NextAttempt(e), Waiting)]
  {
    var s0 := FailsOnce(e, w, error);
    ReachableNext(s0, Release(0));
    var s1 := Next(s0, Release(0));
    ReachableNext(s1, Schedule(0));
    var s2 := Next(s1, Schedule(0));
    assert s2.sched == [NextAttempt(e)];
    ReachableNext(s2, Promote(0));
    s := Next(s2, Promote(0));
  }

  /** ... is turned into a lost one when its retry is delivered, lost and reclaimed. */
  lemma OldOutcomeOverwritten(e: Envelope, w: string, error: string, w': string, w'': string) returns (s: State)
    requires e.attempt == 0 && Backoff.IsRetryable(e.policy, ErrorType(error), 1)
    ensures Reachable(s) && Enabled(s, CloseLost(2, true))
    ensures s.tables.attempts == map[(e.taskId, 1) := AttemptRow(w, 1, ClosedFailed)]
    ensures Next(s, CloseLost(2, true)).tables.attempts == map[(e.taskId, 1) := AttemptRow(w, 1, LeaseLost)]
  {
    var s0 := RetriedOnce(e, w, error);
    ReachableNext(s0, Deliver(w', 1));
    var s1 := Next(s0, Deliver(w', 1));
    ReachableNext(s1, Reclaim(w'', 1));
    s := Next(s1, Reclaim(w'', 1));
    assert s.acts[2] == Activity(w'', 1, NextAttempt(NextAttempt(e)), Adopted);
    assert Next(s, CloseLost(2, true)).tables == WithAttemptClosed(s.tables, e.taskId, 1, LeaseLost);
  }

  // ---- what a row says is what was written last ----

  /** The state that a step writes into the row of the task, if it writes one. */
  function StateWritten(s: State, step: Step, task: TaskId): Option<TaskState> {
    match step
    case Record(a, applied, _, _) => if applied && Of(s, a, task) then Some(Leased) else None
    case Commit(a, applied, _, _) =>
      if applied && Of(s, a, task) && s.acts[a].phase.EffectInserted? then Some(Succeeded) else None
    case MarkDead(a) => if Of(s, a, task) then Some(Dead) else None
    case _ => None
  }

  predicate Of(s: State, a: nat, task: TaskId) {
    a < |s.acts| && s.acts[a].env.taskId == task
  }

  /** The last of them in a run. */
  function LastState(s: State, steps: seq<Step>, task: TaskId): Option<TaskState>
    requires ValidRun(s, steps)
    decreases steps
  {
    if steps == [] then None
    else
      var later := LastState(Next(s, steps[0]), steps[1..], task);
      if later.Some? then later else StateWritten(s, steps[0], task)
  }

  lemma StateAfter(s: State, step: Step, task: TaskId)
    requires Enabled(s, step) && task in s.tables.tasks
    ensures task in TablesAfter(s, step).tasks
    ensures TablesAfter(s, step).tasks[task].state ==
      if StateWritten(s, step, task).Some? then StateWritten(s, step, task).value else s.tables.tasks[task].state
  {
  }

  /** Over any run the row of a task ends in the state written last: leased by a recorded attempt,
      succeeded by the commit of a fresh effect, dead by a dead-lettering; or in the one it had. */
  lemma {:induction false} StateIsLastWritten(s: State, steps: seq<Step>, task: TaskId)
    requires ValidRun(s, steps) && task in s.tables.tasks
    ensures task in Run(s, steps).tables.tasks
    ensures Run(s, steps).tables.tasks[task].state ==
      if LastState(s, steps, task).Some? then LastState(s, steps, task).value else s.tables.tasks[task].state
    decreases steps
  {
    if steps != [] {
      NextTables(s, steps[0]);
      StateAfter(s, steps[0], task);
      StateIsLastWritten(Next(s, steps[0]), steps[1..], task);
    }
  }

  /** In particular: once a dead-lettered delivery has marked its task, the row says dead for as long as
      nobody records another attempt of the task or commits a fresh effect for it. */
  lemma DeadLetteredIsDead(s: State, a: nat, steps: seq<Step>)
    requires Enabled(s, MarkDead(a)) && s.acts[a].env.taskId in s.tables.tasks
    requires ValidRun(Next(s, MarkDead(a)), steps)
    requires var last := LastState(Next(s, MarkDead(a)), steps, s.acts[a].env.taskId); last.None? || last.value == Dead
    ensures var task, s' := s.acts[a].env.taskId, Run(Next(s, MarkDead(a)), steps);
      task in s'.tables.tasks && s'.tables.tasks[task].state == Dead
  {
    NextTables(s, MarkDead(a));
    StateAfter(s, MarkDead(a), s.acts[a].env.taskId);
    StateIsLastWritten(Next(s, MarkDead(a)), steps, s.acts[a].env.taskId);
  }

  /** The outcome that a step gives the row of this attempt, if it gives one. */
  function OutcomeWritten(s: State, step: Step, k: (TaskId, nat)): Option<Outcome> {
    match step
    case Commit(a, applied, _, _) =>
      if !applied || !Of(s, a, k.0) || s.acts[a].env.attempt + 1 != k.1 then None
      else if !s.acts[a].phase.HandlerFailed? then Some(ClosedSucceeded)
      else Some(if s.acts[a].phase.errorType == "FenceRejectedError" then LeaseLost else ClosedFailed)
    case CloseLost(a, applied) =>
      if applied && Of(s, a, k.0) && s.acts[a].env.attempt == k.1 + 1 then Some(LeaseLost) else None
    case _ => None
  }

  function LastOutcome(s: State, steps: seq<Step>, k: (TaskId, nat)): Option<Outcome>
    requires ValidRun(s, steps)
    decreases steps
  {
    if steps == [] then None
    else
      var later := LastOutcome(Next(s, steps[0]), steps[1..], k);
      if later.Some? then later else OutcomeWritten(s, steps[0], k)
  }

  lemma OutcomeAfter(s: State, step: Step, k: (TaskId, nat))
    requires Enabled(s, step) && k in s.tables.attempts
    ensures k in TablesAfter(s, step).attempts
    ensures TablesAfter(s, step).attempts[k] ==
      if OutcomeWritten(s, step, k).Some? then s.tables.attempts[k].(outcome := OutcomeWritten(s, step, k).value)
      else s.tables.attempts[k]
  {
  }

  /** Over any run an attempt row keeps its worker and fence and ends with the outcome written last:
      succeeded or failed by its own commit, lost by a commit after a fence rejection or by the reclaimer
      of a message whose stored number it has. */
  lemma {:induction false} OutcomeIsLastWritten(s: State, steps: seq<Step>, k: (TaskId, nat))
    requires ValidRun(s, steps) && k in s.tables.attempts
    ensures k in Run(s, steps).tables.attempts
    ensures Run(s, steps).tables.attempts[k] == s.tables.attempts[k].(outcome :=
      if LastOutcome(s, steps, k).Some? then LastOutcome(s, steps, k).value else s.tables.attempts[k].outcome)
    decreases steps
  {
    if steps != [] {
      NextTables(s, steps[0]);
      OutcomeAfter(s, steps[0], k);
      OutcomeIsLastWritten(Next(s, steps[0]), steps[1..], k);
    }
  }

  /** The steps that overwrite the state of a task. */
  predicate Overwrites(s: State, step: Step, task: TaskId) {
    || (step.Record? && step.applied && step.a < |s.acts| && s.acts[step.a].env.taskId == task)
    || (step.MarkDead? && step.a < |s.acts| && s.acts[step.a].env.taskId == task)
  }

  predicate SucceededRow(s: State, task: TaskId) {
    task in s.tables.tasks && s.tables.tasks[task].state.Succeeded?
  }

  predicate OverwrittenIn(s: State, steps: seq<Step>, task: TaskId)
    requires ValidRun(s, steps)
    decreases steps
  {
    steps != [] && (Overwrites(s, steps[0], task) || OverwrittenIn(Next(s, steps[0]), steps[1..], task))
  }

  lemma SucceededAfter(s: State, step: Step, task: TaskId)
    requires Enabled(s, step) && SucceededRow(s, task)
    ensures task in TablesAfter(s, step).tasks
    ensures TablesAfter(s, step).tasks[task].state.Succeeded? <==> !Overwrites(s, step, task)
  {
  }

  /** Only the commit of a fresh effect sets a task to succeeded. */
  lemma SucceededBy(s: State, step: Step, task: TaskId)
    requires Enabled(s, step) && !SucceededRow(s, task)
    requires task in TablesAfter(s, step).tasks && TablesAfter(s, step).tasks[task].state.Succeeded?
    ensures step.Commit? && step.applied && s.acts[step.a].phase.EffectInserted? && s.acts[step.a].env.taskId == task
  {
  }

  lemma EffectStays(s: State, step: Step, task: TaskId)
    requires Inv(s) && Enabled(s, step) && HasEffect(s, task)
    ensures HasEffect(Next(s, step), task)
  {
    PublishedKept(s, step);
    EffectsOfStep(s, step);
  }

  lemma NoEffectYet(s: State, a: nat)
    requires Inv(s) && a < |s.acts| && s.acts[a].phase.EffectInserted?
    ensures !HasEffect(s, s.acts[a].env.taskId)
  {
    assert KnownUpTo(s.published, s.acts[a].env);
    assert Key(s, a) == EffectKey(s.acts[a].env);
  }

  /** Once the effect is in, the state succeeded is given up at most once. */
  lemma NotSucceededStays(s: State, step: Step, task: TaskId)
    requires Inv(s) && Enabled(s, step) && HasEffect(s, task) && !SucceededRow(s, task)
    ensures HasEffect(Next(s, step), task) && !SucceededRow(Next(s, step), task)
  {
    EffectStays(s, step, task);
    NextTables(s, step);
    if SucceededRow(Next(s, step), task) {
      SucceededBy(s, step, task);
      NoEffectYet(s, step.a);
    }
  }

  /** A task whose effect is in and whose row says anything but succeeded never succeeds again. */
  lemma {:induction false} NeverSucceedsAgain(s: State, steps: seq<Step>, task: TaskId)
    requires Inv(s) && ValidRun(s, steps) && HasEffect(s, task) && !SucceededRow(s, task)
    ensures HasEffect(Run(s, steps), task) && !SucceededRow(Run(s, steps), task)
    decreases steps
  {
    if steps != [] {
      NotSucceededStays(s, steps[0], task);
      InvStep(s, steps[0]);
      NeverSucceedsAgain(Next(s, steps[0]), steps[1..], task);
    }
  }

  lemma SucceededHasEffect(s: State, task: TaskId)
    requires Inv(s) && SucceededRow(s, task)
    ensures HasEffect(s, task)
  {
    assert HasOwnEffect(s, task);
  }

  lemma OverwrittenStep(s: State, step: Step, task: TaskId)
    requires Inv(s) && Enabled(s, step) && SucceededRow(s, task)
    ensures SucceededRow(Next(s, step), task) <==> !Overwrites(s, step, task)
    ensures HasEffect(Next(s, step), task)
  {
    SucceededHasEffect(s, task);
    EffectStays(s, step, task);
    NextTables(s, step);
    SucceededAfter(s, step, task);
  }

  /** Exactly when a succeeded task is still succeeded at the end of a run: when no step of the run
      recorded another attempt of it or marked it dead.  Nothing repairs such a step later. */
  lemma {:induction false} SucceededStaysIff(s: State, steps: seq<Step>, task: TaskId)
    requires Inv(s) && ValidRun(s, steps) && SucceededRow(s, task)
    ensures SucceededRow(Run(s, steps), task) <==> !OverwrittenIn(s, steps, task)
    decreases steps
  {
    if steps != [] {
      OverwrittenStep(s, steps[0], task);
      InvStep(s, steps[0]);
      if Overwrites(s, steps[0], task) {
        NeverSucceedsAgain(Next(s, steps[0]), steps[1..], task);
      } else {
        SucceededStaysIff(Next(s, steps[0]), steps[1..], task);
      }
    }
  }

  /** The tables after the zombie's commit, ... */
  function Tables1(e: Envelope, w: string, r: string): Tables {
    Tables(map[e.taskId := TaskRow(e.queue, e.dedupKey, Succeeded, 1)],
           map[(e.taskId, 1) := AttemptRow(w, 1, ClosedSucceeded)],
           map[EffectKey(e) := EffectRow(e.taskId, 1, r)])
  }

  /** ... after the reclaimer has recorded its attempt with this outcome so far. */
  function Tables2(e: Envelope, w: string, r: string, w': string, outcome: Outcome): Tables {
    Tables(map[e.taskId := TaskRow(e.queue, e.dedupKey, Leased, 2)],
           map[(e.taskId, 1) := AttemptRow(w, 1, ClosedSucceeded), (e.taskId, 2) := AttemptRow(w', 2, outcome)],
           map[EffectKey(e) := EffectRow(e.taskId, 1, r)])
  }

  function Pair(e: Envelope, w: string, p: Phase, w': string, p': Phase): seq<Activity> {
    [Activity(w, 0, e, p), Activity(w', 0, NextAttempt(e), p')]
  }

  lemma TableSteps(e: Envelope, w: string, r: string, w': string)
    requires e.attempt == 0
    ensures Committed(Stalled(e, w, r).tables, Activity(w, 0, e, EffectInserted(1, r))) == Tables1(e, w, r)
    ensures WithLeased(WithAttempt(Tables1(e, w, r), e.taskId, 2, w', 2), e.taskId, 2)
         == Tables2(e, w, r, w', Unfinished)
    ensures Committed(Tables2(e, w, r, w', Unfinished), Activity(w', 0, NextAttempt(e), EffectPresent(2)))
         == Tables2(e, w, r, w', ClosedSucceeded)
  {
  }

  lemma ZombieSettles(e: Envelope, w: string, r: string, w': string)
    requires e.attempt == 0
    ensures LeadsTo(Submitted(e), Superseded(e, w, r, w').(
      tables := Tables1(e, w, r), acts := Pair(e, w, Settled(1, true, ""), w', Holding(2))))
  {
    var s0 := ZombieInserts(e, w, r, w');
    TableSteps(e, w, r, w');
    LeadsNext(Submitted(e), s0, Commit(0, true, true, ""));
    assert Next(s0, Commit(0, true, true, "")).acts == Pair(e, w, Settled(1, true, ""), w', Holding(2));
  }

  lemma ReclaimerRecords(e: Envelope, w: string, r: string, w': string)
    requires e.attempt == 0
    ensures LeadsTo(Submitted(e), Superseded(e, w, r, w').(
      tables := Tables2(e, w, r, w', Unfinished), acts := Pair(e, w, Settled(1, true, ""), w', Executing(2))))
  {
    ZombieSettles(e, w, r, w');
    var s0 := Superseded(e, w, r, w').(
      tables := Tables1(e, w, r), acts := Pair(e, w, Settled(1, true, ""), w', Holding(2)));
    TableSteps(e, w, r, w');
    LeadsNext(Submitted(e), s0, Record(1, true, true, ""));
    assert Next(s0, Record(1, true, true, "")).acts == Pair(e, w, Settled(1, true, ""), w', Executing(2));
  }

  lemma ReclaimerSelects(e: Envelope, w: string, r: string, w': string)
    requires e.attempt == 0
    ensures LeadsTo(Submitted(e), Superseded(e, w, r, w').(
      tables := Tables2(e, w, r, w', Unfinished), acts := Pair(e, w, Settled(1, true, ""), w', EffectPresent(2))))
  {
    ReclaimerRecords(e, w, r, w');
    var s0 := Superseded(e, w, r, w').(
      tables := Tables2(e, w, r, w', Unfinished), acts := Pair(e, w, Settled(1, true, ""), w', Executing(2)));
    LeadsNext(Submitted(e), s0, Handle(1, Success(r)));
    var s1 := Next(s0, Handle(1, Success(r)));
    LeadsNext(Submitted(e), s1, Select(1, true, ""));
    assert Next(s1, Select(1, true, "")).acts == Pair(e, w, Settled(1, true, ""), w', EffectPresent(2));
  }

  lemma ReclaimerCommits(e: Envelope, w: string, r: string, w': string) returns (s: State)
    requires e.attempt == 0
    ensures LeadsTo(Submitted(e), s)
    ensures s.acts == Pair(e, w, Settled(1, true, ""), w', Settled(2, true, ""))
    ensures s.tables == Tables2(e, w, r, w', ClosedSucceeded) && s.published == map[e.taskId := e]
  {
    ReclaimerSelects(e, w, r, w');
    var s0 := Superseded(e, w, r, w').(
      tables := Tables2(e, w, r, w', Unfinished), acts := Pair(e, w, Settled(1, true, ""), w', EffectPresent(2)));
    TableSteps(e, w, r, w');
    LeadsNext(Submitted(e), s0, Commit(1, true, true, ""));
    s := Next(s0, Commit(1, true, true, ""));
  }

  /** A task whose effect is committed and whose every delivery reported success can be left in state
      leased for ever: the already-committed branch does not touch the task row, and no continuation
      makes the row say succeeded again. */
  lemma CommittedTaskStaysLeased(e: Envelope, w: string, r: string, w': string) returns (s: State)
    requires e.attempt == 0
    ensures Reachable(s)
    ensures s.acts == Pair(e, w, Settled(1, true, ""), w', Settled(2, true, ""))
    ensures HasOwnEffect(s, e.taskId)
    ensures e.taskId in s.tables.tasks && s.tables.tasks[e.taskId].state == Leased
    ensures forall steps :: ValidRun(s, steps) ==> !SucceededRow(Run(s, steps), e.taskId)
  {
    s := ReclaimerCommits(e, w, r, w');
    SubmittedIsReachable(e);
    ReachableVia(Submitted(e), s);
    InvReachable(s);
    forall steps | ValidRun(s, steps) ensures !SucceededRow(Run(s, steps), e.taskId) {
      NeverSucceedsAgain(s, steps, e.taskId);
    }
  }
}
