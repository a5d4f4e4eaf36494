/** Where rows come from: attempts, effects and task states over whole runs. */
module Provenance {
  import opened Envelopes
  import opened Store
  import opened Protocol
  import opened Fencing
  import opened Effects
  import opened Deliveries

  /** Phases behind a committed attempt row. */
  predicate Recorded(p: Phase) {
    p.Executing? || p.HandlerFailed? || p.HandlerDone? || p.EffectAbsent? || p.EffectInserted? || p.EffectPresent?
  }

  predicate AttemptOf(attempts: map<(TaskId, nat), AttemptRow>, task: TaskId, n: nat, fence: nat) {
    (task, n) in attempts && attempts[(task, n)].fence == fence
  }

  /** The row belongs to a granted lease of its task and to a published task within its budget. */
  predicate SoundAttempt(s: State, k: (TaskId, nat), row: AttemptRow) {
    && GrantedAs(s.grants, row.fence, k.0, row.worker)
    && k.0 in s.published
    && 1 <= k.1 <= Limit(s.published[k.0].policy) + 1
  }

  /** Every row is sound and no two rows share a fence. */
  ghost predicate AttemptRowsInv(s: State) {
    && (forall k :: k in s.tables.attempts ==> SoundAttempt(s, k, s.tables.attempts[k]))
    && (forall j, k :: j in s.tables.attempts && k in s.tables.attempts && j != k ==>
          s.tables.attempts[j].fence != s.tables.attempts[k].fence)
  }

  /** Activities past recording have their row; activities before it have a fence no row has. */
  ghost predicate AttemptActsInv(s: State) {
    && (forall a :: 0 <= a < |s.acts| && Recorded(s.acts[a].phase) ==>
          AttemptOf(s.tables.attempts, s.acts[a].env.taskId, s.acts[a].env.attempt + 1, s.acts[a].phase.fence))
    && (forall a, k :: 0 <= a < |s.acts| && s.acts[a].phase.Holding? && k in s.tables.attempts ==>
          s.tables.attempts[k].fence != s.acts[a].phase.fence)
  }

  ghost predicate AttemptInv(s: State) {
    AttemptRowsInv(s) && AttemptActsInv(s)
  }

  /** Rows may only change their outcome. */
  ghost predicate SameAttempts(x: map<(TaskId, nat), AttemptRow>, y: map<(TaskId, nat), AttemptRow>) {
    x.Keys == y.Keys && forall k :: k in x ==> y[k].fence == x[k].fence && y[k].worker == x[k].worker
  }

  lemma AttemptsAfter(s: State, step: Step)
    requires Enabled(s, step) && !(step.Record? && step.applied)
    ensures SameAttempts(s.tables.attempts, TablesAfter(s, step).attempts)
  {
  }

  lemma AttemptsOfStep(s: State, step: Step)
    requires Enabled(s, step) && !(step.Record? && step.applied)
    ensures SameAttempts(s.tables.attempts, Next(s, step).tables.attempts)
  {
    NextTables(s, step);
    AttemptsAfter(s, step);
  }

  lemma RecordedPhases(s: State, step: Step)
    requires Enabled(s, step) && IsMove(step)
    ensures step.a < |s.acts| && step.a < |Next(s, step).acts|
    ensures var p, p' := s.acts[step.a].phase, Next(s, step).acts[step.a].phase;
      && (Recorded(p') && !step.Record? ==> Recorded(p) && p'.fence == p.fence)
      && (p'.Holding? ==> step.Acquire? && p'.fence == s.leases.counter + 1)
  {
  }

  /** Recording adds one row, under a fence no row has, and moves its activity on. */
  lemma RowAdded(s: State, s': State, k: (TaskId, nat), row: AttemptRow)
    requires AttemptRowsInv(s) && SoundAttempt(s, k, row) && k !in s.tables.attempts
    requires forall j :: j in s.tables.attempts ==> s.tables.attempts[j].fence != row.fence
    requires s'.grants == s.grants && s'.published == s.published
    requires s'.tables.attempts == s.tables.attempts[k := row]
    ensures AttemptRowsInv(s')
  {
    forall j | j in s'.tables.attempts ensures SoundAttempt(s', j, s'.tables.attempts[j]) {
      assert j != k ==> SoundAttempt(s, j, s.tables.attempts[j]);
    }
  }

  lemma ActRecorded(s: State, s': State, a: nat, p': Phase, k: (TaskId, nat), row: AttemptRow)
    requires AttemptActsInv(s) && a < |s.acts| && !p'.Holding?
    requires k == (s.acts[a].env.taskId, s.acts[a].env.attempt + 1) && k !in s.tables.attempts
    requires Recorded(p') ==> p'.fence == row.fence
    requires forall b :: 0 <= b < |s.acts| && b != a && s.acts[b].phase.Holding? ==> s.acts[b].phase.fence != row.fence
    requires s'.acts == s.acts[a := s.acts[a].(phase := p')]
    requires s'.tables.attempts == s.tables.attempts[k := row]
    ensures AttemptActsInv(s')
  {
  }

  lemma HoldersDiffer(s: State, a: nat)
    requires FenceInv(s) && EnvelopeInv(s) && a < |s.acts| && s.acts[a].phase.Holding?
    ensures forall b :: 0 <= b < |s.acts| && b != a && s.acts[b].phase.Holding? ==>
      s.acts[b].phase.fence != s.acts[a].phase.fence
    ensures SoundAttempt(s, (s.acts[a].env.taskId, s.acts[a].env.attempt + 1),
                         AttemptRow(s.acts[a].worker, s.acts[a].phase.fence, Unfinished))
  {
    assert HasFence(s.acts[a].phase);
    assert KnownUpTo(s.published, s.acts[a].env);
    forall b | 0 <= b < |s.acts| && b != a && s.acts[b].phase.Holding?
      ensures s.acts[b].phase.fence != s.acts[a].phase.fence
    {
      assert HasFence(s.acts[b].phase);
    }
  }

  lemma AttemptRecord(s: State, step: Step)
    requires AttemptInv(s) && FenceInv(s) && EnvelopeInv(s) && Enabled(s, step) && step.Record? && step.applied
    ensures AttemptInv(Next(s, step))
  {
    var act := s.acts[step.a];
    var k, row := (act.env.taskId, act.env.attempt + 1), AttemptRow(act.worker, act.phase.fence, Unfinished);
    HoldersDiffer(s, step.a);
    RowAdded(s, Next(s, step), k, row);
    ActRecorded(s, Next(s, step), step.a, Next(s, step).acts[step.a].phase, k, row);
  }

  lemma RowsStaySound(s: State, s': State)
    requires AttemptRowsInv(s) && s.grants <= s'.grants
    requires forall t :: t in s.published ==> t in s'.published && s'.published[t] == s.published[t]
    requires SameAttempts(s.tables.attempts, s'.tables.attempts)
    ensures AttemptRowsInv(s')
  {
    forall k | k in s'.tables.attempts ensures SoundAttempt(s', k, s'.tables.attempts[k]) {
      assert SoundAttempt(s, k, s.tables.attempts[k]);
    }
  }

  lemma ActsStayRecorded(s: State, s': State, a: nat, p': Phase)
    requires AttemptActsInv(s) && a < |s.acts|
    requires Recorded(p') ==> Recorded(s.acts[a].phase) && p'.fence == s.acts[a].phase.fence
    requires p'.Holding? ==> forall k :: k in s.tables.attempts ==> s.tables.attempts[k].fence < p'.fence
    requires s'.acts == s.acts[a := s.acts[a].(phase := p')]
    requires SameAttempts(s.tables.attempts, s'.tables.attempts)
    ensures AttemptActsInv(s')
  {
  }

  lemma FencesBelowNext(s: State)
    requires AttemptRowsInv(s) && FenceInv(s)
    ensures forall k :: k in s.tables.attempts ==> s.tables.attempts[k].fence < s.leases.counter + 1
  {
    forall k | k in s.tables.attempts ensures s.tables.attempts[k].fence < s.leases.counter + 1 {
      assert SoundAttempt(s, k, s.tables.attempts[k]);
    }
  }

  lemma AttemptsKept(s: State, step: Step)
    requires AttemptInv(s) && FenceInv(s) && Enabled(s, step) && IsMove(step) && !(step.Record? && step.applied)
    requires Recorded(Next(s, step).acts[step.a].phase) ==>
      Recorded(s.acts[step.a].phase) && Next(s, step).acts[step.a].phase.fence == s.acts[step.a].phase.fence
    ensures AttemptInv(Next(s, step))
  {
    var s' := Next(s, step);
    MoveFrame(s, step);
    AttemptsOfStep(s, step);
    GrantsGrow(s, step);
    RecordedPhases(s, step);
    RowsStaySound(s, s');
    FencesBelowNext(s);
    ActsStayRecorded(s, s', step.a, s'.acts[step.a].phase);
  }

  lemma AttemptNotRecorded(s: State, step: Step)
    requires Enabled(s, step) && step.Record? && !step.applied
    ensures !Recorded(Next(s, step).acts[step.a].phase)
  {
  }

  lemma AttemptOther(s: State, step: Step)
    requires AttemptInv(s) && Enabled(s, step) && !IsMove(step)
    ensures AttemptInv(Next(s, step))
  {
    var s' := Next(s, step);
    OtherFrame(s, step);
    PublishedKept(s, step);
    AttemptsOfStep(s, step);
    RowsStaySound(s, s');
    ActsJoined(s, s');
  }

  lemma ActsJoined(s: State, s': State)
    requires AttemptActsInv(s) && SameAttempts(s.tables.attempts, s'.tables.attempts)
    requires |s.acts| <= |s'.acts| && s'.acts[..|s.acts|] == s.acts
    requires forall b :: |s.acts| <= b < |s'.acts| ==> s'.acts[b].phase.Received? || s'.acts[b].phase.Adopted?
    ensures AttemptActsInv(s')
  {
    assert forall a :: 0 <= a < |s.acts| ==> s'.acts[a] == s'.acts[..|s.acts|][a] == s.acts[a];
  }

  lemma PublishedKept(s: State, step: Step)
    requires Enabled(s, step)
    ensures var s' := Next(s, step);
      forall t :: t in s.published ==> t in s'.published && s'.published[t] == s.published[t]
  {
    if IsMove(step) { MoveFrame(s, step); } else { OtherFrame(s, step); }
  }

  lemma {:induction false} PublishedOverRun(s: State, steps: seq<Step>, task: TaskId)
    requires ValidRun(s, steps) && task in s.published
    ensures task in Run(s, steps).published && Run(s, steps).published[task] == s.published[task]
    decreases steps
  {
    if steps != [] {
      PublishedKept(s, steps[0]);
      PublishedOverRun(Next(s, steps[0]), steps[1..], task);
    }
  }

  lemma AttemptStep(s: State, step: Step)
    requires AttemptInv(s) && FenceInv(s) && EnvelopeInv(s) && Enabled(s, step)
    ensures AttemptInv(Next(s, step))
  {
    if step.Record? && step.applied {
      AttemptRecord(s, step);
    } else if IsMove(step) {
      RecordedPhases(s, step);
      if step.Record? { AttemptNotRecorded(s, step); }
      AttemptsKept(s, step);
    } else {
      AttemptOther(s, step);
    }
  }

  ghost predicate SoundEffect(s: State, key: string, row: EffectRow) {
    && row.taskId in s.published && EffectKey(s.published[row.taskId]) == key
    && exists n :: AttemptOf(s.tables.attempts, row.taskId, n, row.fence)
  }

  predicate HasEffect(s: State, task: TaskId) {
    task in s.published && EffectKey(s.published[task]) in s.tables.effects
  }

  predicate HasOwnEffect(s: State, task: TaskId) {
    HasEffect(s, task) && s.tables.effects[EffectKey(s.published[task])].taskId == task
  }

  ghost predicate RowInv(s: State) {
    && (forall key :: key in s.tables.effects ==> SoundEffect(s, key, s.tables.effects[key]))
    && (forall t :: t in s.tables.tasks && s.tables.tasks[t].state.Succeeded? ==> HasOwnEffect(s, t))
    && (forall k :: k in s.tables.attempts && s.tables.attempts[k].outcome.ClosedSucceeded? ==> HasEffect(s, k.0))
  }

  /** Attempts may only be added, and nothing newly claims success. */
  ghost predicate NoNewSuccess(tb: Tables, tb': Tables) {
    && tb'.effects == tb.effects
    && (forall k :: k in tb.attempts ==> k in tb'.attempts && tb'.attempts[k].fence == tb.attempts[k].fence)
    && (forall t :: t in tb'.tasks && tb'.tasks[t].state.Succeeded? ==> t in tb.tasks && tb.tasks[t].state.Succeeded?)
    && (forall k :: k in tb'.attempts && tb'.attempts[k].outcome.ClosedSucceeded? ==>
          k in tb.attempts && tb.attempts[k].outcome.ClosedSucceeded?)
  }

  lemma RowsKept(s: State, s': State)
    requires RowInv(s) && NoNewSuccess(s.tables, s'.tables)
    requires forall t :: t in s.published ==> t in s'.published && s'.published[t] == s.published[t]
    ensures RowInv(s')
  {
    forall key | key in s'.tables.effects ensures SoundEffect(s', key, s'.tables.effects[key]) {
      var row := s.tables.effects[key];
      assert SoundEffect(s, key, row);
      var n :| AttemptOf(s.tables.attempts, row.taskId, n, row.fence);
      assert AttemptOf(s'.tables.attempts, row.taskId, n, row.fence);
    }
  }

  lemma TablesOfStep(s: State, step: Step)
    requires Enabled(s, step) && !(step.Commit? && step.applied && !s.acts[step.a].phase.HandlerFailed?)
    ensures NoNewSuccess(s.tables, TablesAfter(s, step))
  {
  }

  lemma FreshCommitTables(tb: Tables, act: Activity)
    requires act.phase.EffectInserted?
    ensures var tb', task, n := Committed(tb, act), act.env.taskId, act.env.attempt + 1;
      && tb'.effects == tb.effects[EffectKey(act.env) := EffectRow(task, act.phase.fence, act.phase.result)]
      && SameAttempts(tb.attempts, tb'.attempts)
      && (forall k :: k in tb.attempts && k != (task, n) ==> tb'.attempts[k] == tb.attempts[k])
      && tb'.tasks.Keys == tb.tasks.Keys
      && (forall t :: t in tb.tasks && t != task ==> tb'.tasks[t] == tb.tasks[t])
  {
  }

  /** Committing a fresh effect: the row, the task state and the attempt outcome appear together. */
  lemma FreshCommit(s: State, s': State, act: Activity, row: EffectRow)
    requires RowInv(s) && Known(s.published, act.env)
    requires EffectKey(act.env) !in s.tables.effects && row.taskId == act.env.taskId
    requires AttemptOf(s.tables.attempts, act.env.taskId, act.env.attempt + 1, row.fence)
    requires s'.published == s.published
    requires s'.tables.effects == s.tables.effects[EffectKey(act.env) := row]
    requires SameAttempts(s.tables.attempts, s'.tables.attempts)
    requires forall k :: k in s.tables.attempts && k != (act.env.taskId, act.env.attempt + 1) ==>
      s'.tables.attempts[k] == s.tables.attempts[k]
    requires s'.tables.tasks.Keys == s.tables.tasks.Keys
    requires forall t :: t in s.tables.tasks && t != act.env.taskId ==> s'.tables.tasks[t] == s.tables.tasks[t]
    ensures RowInv(s')
  {
    assert EffectKey(s.published[act.env.taskId]) == EffectKey(act.env);
    forall key | key in s'.tables.effects ensures SoundEffect(s', key, s'.tables.effects[key]) {
      var r := s'.tables.effects[key];
      if key == EffectKey(act.env) {
        assert AttemptOf(s'.tables.attempts, r.taskId, act.env.attempt + 1, r.fence);
      } else {
        assert SoundEffect(s, key, r);
        var n :| AttemptOf(s.tables.attempts, r.taskId, n, r.fence);
        assert AttemptOf(s'.tables.attempts, r.taskId, n, r.fence);
      }
    }
    forall t | t in s'.tables.tasks && s'.tables.tasks[t].state.Succeeded? ensures HasOwnEffect(s', t) {
      if t != act.env.taskId { assert HasOwnEffect(s, t); }
    }
  }

  lemma RepeatCommit(s: State, s': State, act: Activity)
    requires RowInv(s) && act.phase.EffectPresent? && Known(s.published, act.env)
    requires EffectKey(act.env) in s.tables.effects
    requires s'.published == s.published && s'.tables == Committed(s.tables, act)
    ensures RowInv(s')
  {
    assert SameAttempts(s.tables.attempts, s'.tables.attempts);
    forall key | key in s'.tables.effects ensures SoundEffect(s', key, s'.tables.effects[key]) {
      var row := s.tables.effects[key];
      assert SoundEffect(s, key, row);
      var n :| AttemptOf(s.tables.attempts, row.taskId, n, row.fence);
      assert AttemptOf(s'.tables.attempts, row.taskId, n, row.fence);
    }
  }

  lemma CommitFacts(s: State, a: nat)
    requires AttemptInv(s) && EffectInv(s) && EnvelopeInv(s)
    requires a < |s.acts| && (s.acts[a].phase.EffectInserted? || s.acts[a].phase.EffectPresent?)
    ensures var act := s.acts[a];
      && Known(s.published, act.env)
      && AttemptOf(s.tables.attempts, act.env.taskId, act.env.attempt + 1, act.phase.fence)
      && (act.phase.EffectInserted? <==> EffectKey(act.env) !in s.tables.effects)
  {
    assert KnownUpTo(s.published, s.acts[a].env);
    assert Recorded(s.acts[a].phase);
    assert Key(s, a) == EffectKey(s.acts[a].env);
  }

  lemma RowCommit(s: State, s': State, act: Activity)
    requires RowInv(s) && Known(s.published, act.env)
    requires act.phase.EffectInserted? || act.phase.EffectPresent?
    requires AttemptOf(s.tables.attempts, act.env.taskId, act.env.attempt + 1, act.phase.fence)
    requires act.phase.EffectInserted? <==> EffectKey(act.env) !in s.tables.effects
    requires s'.published == s.published && s'.tables == Committed(s.tables, act)
    ensures RowInv(s')
  {
    if act.phase.EffectInserted? {
      FreshCommitTables(s.tables, act);
      FreshCommit(s, s', act, EffectRow(act.env.taskId, act.phase.fence, act.phase.result));
    } else {
      RepeatCommit(s, s', act);
    }
  }

  lemma RowStepCommit(s: State, step: Step)
    requires RowInv(s) && AttemptInv(s) && EffectInv(s) && EnvelopeInv(s) && Enabled(s, step)
    requires step.Commit? && step.applied && !s.acts[step.a].phase.HandlerFailed?
    ensures RowInv(Next(s, step))
  {
    CommitFacts(s, step.a);
    RowCommit(s, Next(s, step), s.acts[step.a]);
  }

  lemma RowStepOther(s: State, step: Step)
    requires RowInv(s) && Enabled(s, step)
    requires !(step.Commit? && step.applied && !s.acts[step.a].phase.HandlerFailed?)
    ensures RowInv(Next(s, step))
  {
    NextTables(s, step);
    TablesOfStep(s, step);
    PublishedKept(s, step);
    RowsKept(s, Next(s, step));
  }

  lemma RowStep(s: State, step: Step)
    requires RowInv(s) && AttemptInv(s) && EffectInv(s) && EnvelopeInv(s) && Enabled(s, step)
    ensures RowInv(Next(s, step))
  {
    if step.Commit? && step.applied && !s.acts[step.a].phase.HandlerFailed? {
      RowStepCommit(s, step);
    } else {
      RowStepOther(s, step);
    }
  }

  ghost predicate Inv(s: State) {
    FenceInv(s) && EffectInv(s) && EnvelopeInv(s) && CoverInv(s) && AttemptInv(s) && RowInv(s)
  }

  lemma InvStep(s: State, step: Step)
    requires Inv(s) && Enabled(s, step)
    ensures Inv(Next(s, step))
  {
    FenceStep(s, step);
    EffectStep(s, step);
    EnvelopeStep(s, step);
    CoverStep(s, step);
    AttemptStep(s, step);
    RowStep(s, step);
  }

  lemma {:induction false} InvRun(s: State, steps: seq<Step>)
    requires Inv(s) && ValidRun(s, steps)
    ensures Inv(Run(s, steps))
    decreases steps
  {
    if steps != [] {
      InvStep(s, steps[0]);
      InvRun(Next(s, steps[0]), steps[1..]);
    }
  }

  lemma InvReachable(s: State)
    requires Reachable(s)
    ensures Inv(s)
  {
    var steps :| ValidRun(INIT, steps) && Run(INIT, steps) == s;
    InvRun(INIT, steps);
  }

  /** Every effect row was earned: some attempt of the same task was recorded under the same fence,
      and that fence was granted for that task. */
  lemma EffectsHaveAttempts(s: State, key: string) returns (n: nat)
    requires Reachable(s) && key in s.tables.effects
    ensures var row := s.tables.effects[key];
      && (row.taskId, n) in s.tables.attempts
      && s.tables.attempts[(row.taskId, n)].fence == row.fence
      && GrantedAs(s.grants, row.fence, row.taskId, s.tables.attempts[(row.taskId, n)].worker)
      && row.taskId in s.published && EffectKey(s.published[row.taskId]) == key
  {
    InvReachable(s);
    var row := s.tables.effects[key];
    assert SoundEffect(s, key, row);
    n :| AttemptOf(s.tables.attempts, row.taskId, n, row.fence);
    assert SoundAttempt(s, (row.taskId, n), s.tables.attempts[(row.taskId, n)]);
  }

  /** A task row that says succeeded is backed by an effect row naming that task, and an attempt
      closed as succeeded by an effect under its task's key. */
  lemma SuccessIsBacked(s: State, task: TaskId, n: nat)
    requires Reachable(s)
    ensures task in s.tables.tasks && s.tables.tasks[task].state.Succeeded? ==> HasOwnEffect(s, task)
    ensures (task, n) in s.tables.attempts && s.tables.attempts[(task, n)].outcome.ClosedSucceeded? ==>
      HasEffect(s, task)
  {
    InvReachable(s);
  }

  ghost function AttemptNumbers(s: State, task: TaskId): set<nat> {
    set k | k in s.tables.attempts && k.0 == task :: k.1
  }

  function Range(n: nat): (r: set<nat>)
    ensures |r| == n && forall i :: i in r <==> 1 <= i <= n
  {
    if n == 0 then {} else Range(n - 1) + {n}
  }

  lemma SubsetSize(x: set<nat>, y: set<nat>)
    requires x <= y
    ensures |x| <= |y|
  {
    assert y == x + (y - x);
  }

  /** Attempt bound: however often a task is redelivered, reclaimed or retried, it never has more
      than max_attempts + 1 attempt rows (two if max_attempts is below 1), stored envelopes stay
      below max_attempts, and no two attempt rows anywhere share a fence. */
  lemma AttemptBound(s: State, task: TaskId)
    requires Reachable(s) && task in s.published
    ensures |AttemptNumbers(s, task)| <= Limit(s.published[task].policy) + 1
    ensures forall i :: 0 <= i < |s.stream| && s.stream[i].env.taskId == task ==>
      s.stream[i].env.attempt < Limit(s.published[task].policy)
    ensures forall i :: 0 <= i < |s.sched| && s.sched[i].taskId == task ==>
      s.sched[i].attempt < Limit(s.published[task].policy)
    ensures forall j, k :: j in s.tables.attempts && k in s.tables.attempts && j != k ==>
      s.tables.attempts[j].fence != s.tables.attempts[k].fence
  {
    InvReachable(s);
    var limit := Limit(s.published[task].policy) + 1;
    assert AttemptNumbers(s, task) <= Range(limit);
    SubsetSize(AttemptNumbers(s, task), Range(limit));
  }
}
