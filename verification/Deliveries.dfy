/** What circulates: every envelope anywhere is a published one with a bounded attempt number, and
    no published task is ever lost. */
module Deliveries {
  import opened Envelopes
  import opened Protocol
  import opened Effects

  /** Policies with max_attempts below 1 still get their first delivery. */
  function Limit(p: RetryPolicy): nat {
    if p.maxAttempts >= 1 then p.maxAttempts else 1
  }

  predicate Known(published: map<TaskId, Envelope>, e: Envelope) {
    e.taskId in published && Origin(e) == published[e.taskId]
  }

  predicate KnownBelow(published: map<TaskId, Envelope>, e: Envelope) {
    Known(published, e) && e.attempt < Limit(e.policy)
  }

  predicate KnownUpTo(published: map<TaskId, Envelope>, e: Envelope) {
    Known(published, e) && e.attempt <= Limit(e.policy)
  }

  ghost predicate EnvelopeInv(s: State) {
    && (forall t :: t in s.published ==> s.published[t].taskId == t && s.published[t].attempt == 0)
    && (forall i :: 0 <= i < |s.stream| ==> KnownBelow(s.published, s.stream[i].env))
    && (forall i :: 0 <= i < |s.sched| ==> KnownBelow(s.published, s.sched[i]))
    && (forall i :: 0 <= i < |s.dlq| ==> KnownUpTo(s.published, s.dlq[i]))
    && (forall a :: 0 <= a < |s.acts| ==>
          && KnownUpTo(s.published, s.acts[a].env)
          && s.acts[a].msg < |s.stream|
          && s.stream[s.acts[a].msg].env.taskId == s.acts[a].env.taskId)
  }

  lemma EnvelopeMove(s: State, step: Step)
    requires EnvelopeInv(s) && Enabled(s, step) && IsMove(step)
    ensures EnvelopeInv(Next(s, step))
  {
    MoveFrame(s, step);
  }

  lemma EnvelopeSubmit(s: State, env: Envelope, delayed: bool)
    requires EnvelopeInv(s) && Enabled(s, Submit(env, delayed))
    ensures EnvelopeInv(Next(s, Submit(env, delayed)))
  {
  }

  lemma EnvelopeDeliver(s: State, worker: string, msg: nat)
    requires EnvelopeInv(s) && Enabled(s, Deliver(worker, msg))
    ensures EnvelopeInv(Next(s, Deliver(worker, msg)))
  {
  }

  lemma EnvelopeReclaim(s: State, worker: string, msg: nat)
    requires EnvelopeInv(s) && Enabled(s, Reclaim(worker, msg))
    ensures EnvelopeInv(Next(s, Reclaim(worker, msg)))
  {
  }

  lemma EnvelopePromote(s: State, i: nat)
    requires EnvelopeInv(s) && Enabled(s, Promote(i))
    ensures EnvelopeInv(Next(s, Promote(i)))
  {
  }

  lemma EnvelopeStep(s: State, step: Step)
    requires EnvelopeInv(s) && Enabled(s, step)
    ensures EnvelopeInv(Next(s, step))
  {
    match step
    case Submit(env, delayed) => EnvelopeSubmit(s, env, delayed);
    case Deliver(worker, msg) => EnvelopeDeliver(s, worker, msg);
    case Reclaim(worker, msg) => EnvelopeReclaim(s, worker, msg);
    case Promote(i) => EnvelopePromote(s, i);
    case CreateRow(_, _) =>
    case Expire(_) =>
    case _ => EnvelopeMove(s, step);
  }

  /** An unacked stream entry of the task at index m or later. */
  ghost predicate LiveFrom(stream: seq<Entry>, task: TaskId, m: nat) {
    exists i :: m <= i < |stream| && stream[i].env.taskId == task && !stream[i].status.Acked?
  }

  ghost predicate Parked(es: seq<Envelope>, task: TaskId) {
    exists i :: 0 <= i < |es| && es[i].taskId == task
  }

  /** The task survives without the stream entries before index m. */
  ghost predicate SafeFrom(s: State, task: TaskId, m: nat)
    requires task in s.published
  {
    || LiveFrom(s.stream, task, m)
    || Parked(s.sched, task)
    || Parked(s.dlq, task)
    || EffectKey(s.published[task]) in s.tables.effects
  }

  /** An activity that has handed its task on, and only has to ack, leaves it safe beyond its own
      entry: whatever took over was added to the stream later. */
  ghost predicate CoverInv(s: State) {
    && (forall t :: t in s.published ==> SafeFrom(s, t, 0))
    && (forall a :: 0 <= a < |s.acts| && (s.acts[a].phase.DeadLettered? || s.acts[a].phase.Handled?) ==>
          s.acts[a].env.taskId in s.published && SafeFrom(s, s.acts[a].env.taskId, s.acts[a].msg + 1))
  }

  lemma SafeWhenGrown(s: State, s': State, task: TaskId, m: nat)
    requires task in s.published && SafeFrom(s, task, m)
    requires task in s'.published && s'.published[task] == s.published[task]
    requires |s.stream| <= |s'.stream|
    requires forall i :: 0 <= i < |s.stream| ==>
      s'.stream[i].env == s.stream[i].env && (s'.stream[i].status.Acked? ==> s.stream[i].status.Acked?)
    requires forall i :: 0 <= i < |s.sched| ==> Parked(s'.sched, s.sched[i].taskId)
    requires forall i :: 0 <= i < |s.dlq| ==> i < |s'.dlq| && s'.dlq[i] == s.dlq[i]
    requires s.tables.effects.Keys <= s'.tables.effects.Keys
    ensures SafeFrom(s', task, m)
  {
    if LiveFrom(s.stream, task, m) {
      var i :| m <= i < |s.stream| && s.stream[i].env.taskId == task && !s.stream[i].status.Acked?;
      assert s'.stream[i].env.taskId == task;
    } else if Parked(s.sched, task) {
      var i :| 0 <= i < |s.sched| && s.sched[i].taskId == task;
    } else if Parked(s.dlq, task) {
      var i :| 0 <= i < |s.dlq| && s.dlq[i].taskId == task;
      assert s'.dlq[i].taskId == task;
    }
  }

  lemma ScheduleKeeps(sched: seq<Envelope>, e: Envelope)
    ensures Parked(ScheduleEnvelope(sched, e), e.taskId)
    ensures forall i :: 0 <= i < |sched| ==> Parked(ScheduleEnvelope(sched, e), sched[i].taskId)
  {
    var r := ScheduleEnvelope(sched, e);
    if e in sched {
      var k :| 0 <= k < |sched| && sched[k] == e;
      assert r[k].taskId == e.taskId;
    } else {
      assert r[|sched|].taskId == e.taskId;
    }
    forall i | 0 <= i < |sched| ensures Parked(r, sched[i].taskId) {
      assert r[i].taskId == sched[i].taskId;
    }
  }

  lemma AllParked(es: seq<Envelope>)
    ensures forall i :: 0 <= i < |es| ==> Parked(es, es[i].taskId)
  {
  }

  /** No step of an activity other than its ack takes anything away. */
  lemma MoveKeepsSafe(s: State, step: Step, task: TaskId, m: nat)
    requires Enabled(s, step) && IsMove(step) && !step.Ack?
    requires task in s.published && SafeFrom(s, task, m)
    ensures task in Next(s, step).published && SafeFrom(Next(s, step), task, m)
  {
    var s' := Next(s, step);
    MoveFrame(s, step);
    EffectsOfStep(s, step);
    if step.Schedule? { ScheduleKeeps(s.sched, NextAttempt(s.acts[step.a].env)); } else { AllParked(s.sched); }
    SafeWhenGrown(s, s', task, m);
  }

  lemma HandingSteps(s: State, step: Step)
    requires Enabled(s, step) && IsMove(step)
    ensures step.a < |s.acts| && step.a < |Next(s, step).acts|
    ensures Next(s, step).acts[step.a].phase.DeadLettered? || Next(s, step).acts[step.a].phase.Handled? ==>
      step.Schedule? || step.DeadLetter? || step.MarkDead?
  {
  }

  /** Handing on comes before the ack: after schedule or dead_letter the task is parked. */
  lemma HandedOn(s: State, step: Step, task: TaskId, m: nat)
    requires Enabled(s, step) && (step.Schedule? || step.DeadLetter?)
    requires task == s.acts[step.a].env.taskId && task in s.published
    ensures task in Next(s, step).published && SafeFrom(Next(s, step), task, m)
  {
    if step.Schedule? {
      ScheduleKeeps(s.sched, NextAttempt(s.acts[step.a].env));
    } else {
      assert Next(s, step).dlq[|s.dlq|].taskId == task;
    }
  }

  lemma CoverMove(s: State, step: Step)
    requires EnvelopeInv(s) && CoverInv(s) && Enabled(s, step) && IsMove(step) && !step.Ack?
    ensures CoverInv(Next(s, step))
  {
    var s' := Next(s, step);
    MoveFrame(s, step);
    forall t | t in s'.published ensures SafeFrom(s', t, 0) {
      MoveKeepsSafe(s, step, t, 0);
    }
    forall b | 0 <= b < |s'.acts| && (s'.acts[b].phase.DeadLettered? || s'.acts[b].phase.Handled?)
      ensures s'.acts[b].env.taskId in s'.published && SafeFrom(s', s'.acts[b].env.taskId, s'.acts[b].msg + 1)
    {
      if b == step.a {
        HandingSteps(s, step);
        if step.MarkDead? {
          MoveKeepsSafe(s, step, s.acts[b].env.taskId, s.acts[b].msg + 1);
        } else {
          HandedOn(s, step, s.acts[b].env.taskId, s.acts[b].msg + 1);
        }
      } else {
        assert s'.acts[b] == s.acts[b];
        MoveKeepsSafe(s, step, s.acts[b].env.taskId, s.acts[b].msg + 1);
      }
    }
  }

  /** Acking one entry hurts no task: not its own, which is safe beyond it, and not one that was
      relying on this entry, which is the same task. */
  lemma AckKeepsSafe(s: State, a: nat, task: TaskId, m: nat)
    requires EnvelopeInv(s) && EffectInv(s) && CoverInv(s) && Enabled(s, Ack(a))
    requires task in s.published && SafeFrom(s, task, m) && m <= |s.stream|
    ensures SafeFrom(Next(s, Ack(a)), task, m)
  {
    var s', act := Next(s, Ack(a)), s.acts[a];
    if LiveFrom(s.stream, task, m) {
      var i :| m <= i < |s.stream| && s.stream[i].env.taskId == task && !s.stream[i].status.Acked?;
      if i != act.msg {
        assert s'.stream[i] == s.stream[i];
      } else if act.phase.Returned? {
        assert Key(s, a) in s.tables.effects;
      } else {
        assert SafeFrom(s, task, act.msg + 1);
        if LiveFrom(s.stream, task, act.msg + 1) {
          var j :| act.msg + 1 <= j < |s.stream| && s.stream[j].env.taskId == task && !s.stream[j].status.Acked?;
          assert s'.stream[j] == s.stream[j];
        }
      }
    }
  }

  lemma CoverAck(s: State, a: nat)
    requires EnvelopeInv(s) && EffectInv(s) && CoverInv(s) && Enabled(s, Ack(a))
    ensures CoverInv(Next(s, Ack(a)))
  {
    var s' := Next(s, Ack(a));
    forall t | t in s'.published ensures SafeFrom(s', t, 0) {
      AckKeepsSafe(s, a, t, 0);
    }
    forall b | 0 <= b < |s'.acts| && (s'.acts[b].phase.DeadLettered? || s'.acts[b].phase.Handled?)
      ensures s'.acts[b].env.taskId in s'.published && SafeFrom(s', s'.acts[b].env.taskId, s'.acts[b].msg + 1)
    {
      assert b != a && s'.acts[b] == s.acts[b];
      AckKeepsSafe(s, a, s.acts[b].env.taskId, s.acts[b].msg + 1);
    }
  }

  /** A promoted envelope reappears behind every entry there was. */
  lemma PromoteKeepsSafe(s: State, i: nat, task: TaskId, m: nat)
    requires Enabled(s, Promote(i)) && m <= |s.stream|
    requires task in s.published && SafeFrom(s, task, m)
    ensures SafeFrom(Next(s, Promote(i)), task, m)
  {
    var s' := Next(s, Promote(i));
    assert s'.stream[|s.stream|] == Entry(s.sched[i], Waiting);
    if LiveFrom(s.stream, task, m) {
      var k :| m <= k < |s.stream| && s.stream[k].env.taskId == task && !s.stream[k].status.Acked?;
      assert s'.stream[k] == s.stream[k];
    } else if Parked(s.sched, task) {
      var k :| 0 <= k < |s.sched| && s.sched[k].taskId == task;
      if k < i {
        assert s'.sched[k] == s.sched[k];
      } else if k > i {
        assert s'.sched[k - 1] == s.sched[k];
      }
    }
  }

  lemma OtherKeepsSafe(s: State, step: Step, task: TaskId, m: nat)
    requires Enabled(s, step) && !IsMove(step) && m <= |s.stream|
    requires task in s.published && SafeFrom(s, task, m)
    ensures task in Next(s, step).published && SafeFrom(Next(s, step), task, m)
  {
    var s' := Next(s, step);
    if step.Promote? {
      PromoteKeepsSafe(s, step.index, task, m);
    } else {
      OtherFrame(s, step);
      AllParked(s.sched);
      if step.Submit? { ScheduleKeeps(s.sched, step.env); }
      SafeWhenGrown(s, s', task, m);
    }
  }

  lemma SubmittedIsSafe(s: State, env: Envelope, delayed: bool)
    requires Enabled(s, Submit(env, delayed))
    ensures SafeFrom(Next(s, Submit(env, delayed)), env.taskId, 0)
  {
    var s' := Next(s, Submit(env, delayed));
    if delayed {
      ScheduleKeeps(s.sched, env);
    } else {
      assert s'.stream[|s.stream|] == Entry(env, Waiting);
    }
  }

  lemma CoverOther(s: State, step: Step)
    requires EnvelopeInv(s) && CoverInv(s) && Enabled(s, step) && !IsMove(step)
    ensures CoverInv(Next(s, step))
  {
    var s' := Next(s, step);
    OtherFrame(s, step);
    forall t | t in s'.published ensures SafeFrom(s', t, 0) {
      if t in s.published {
        OtherKeepsSafe(s, step, t, 0);
      } else {
        SubmittedIsSafe(s, step.env, step.delayed);
      }
    }
    forall b | 0 <= b < |s'.acts| && (s'.acts[b].phase.DeadLettered? || s'.acts[b].phase.Handled?)
      ensures s'.acts[b].env.taskId in s'.published && SafeFrom(s', s'.acts[b].env.taskId, s'.acts[b].msg + 1)
    {
      assert b < |s.acts| && s'.acts[b] == s'.acts[..|s.acts|][b] == s.acts[b];
      OtherKeepsSafe(s, step, s.acts[b].env.taskId, s.acts[b].msg + 1);
    }
  }

  lemma CoverStep(s: State, step: Step)
    requires EnvelopeInv(s) && EffectInv(s) && CoverInv(s) && Enabled(s, step)
    ensures CoverInv(Next(s, step))
  {
    if step.Ack? {
      CoverAck(s, step.a);
    } else if IsMove(step) {
      CoverMove(s, step);
    } else {
      CoverOther(s, step);
    }
  }

  lemma {:induction false} DeliveryRun(s: State, steps: seq<Step>)
    requires EnvelopeInv(s) && EffectInv(s) && CoverInv(s) && ValidRun(s, steps)
    ensures var s' := Run(s, steps); EnvelopeInv(s') && EffectInv(s') && CoverInv(s')
    decreases steps
  {
    if steps != [] {
      EnvelopeStep(s, steps[0]);
      EffectStep(s, steps[0]);
      CoverStep(s, steps[0]);
      DeliveryRun(Next(s, steps[0]), steps[1..]);
    }
  }

  /** No task is lost: after any run, with crashes, exceptions, lease expiry, reclaims and
      half-reported commits anywhere, every task ever published or scheduled still has an unacked
      stream entry, a scheduled entry or a DLQ entry, or its effect is committed. */
  lemma NoTaskLost(steps: seq<Step>, task: TaskId)
    requires ValidRun(INIT, steps) && task in Run(INIT, steps).published
    ensures var s := Run(INIT, steps);
      || LiveFrom(s.stream, task, 0)
      || Parked(s.sched, task)
      || Parked(s.dlq, task)
      || EffectKey(s.published[task]) in s.tables.effects
  {
    DeliveryRun(INIT, steps);
  }

  // ---- the scheduled set and the DLQ ----

  /** A sorted set holds each envelope once; what is dead-lettered was being delivered as it is. */
  ghost predicate ShelfInv(s: State) {
    && (forall i, j :: 0 <= i < j < |s.sched| ==> s.sched[i] != s.sched[j])
    && (forall i :: 0 <= i < |s.dlq| ==> WasDelivered(s.acts, s.dlq[i]))
  }

  ghost predicate WasDelivered(acts: seq<Activity>, e: Envelope) {
    exists a :: 0 <= a < |acts| && acts[a].env == e && GivenUp(acts[a].phase)
  }

  predicate GivenUp(p: Phase) {
    p.DeadLettered? || p.Handled? || p.Finished?
  }

  lemma GivenUpForGood(s: State, step: Step)
    requires Enabled(s, step) && IsMove(step)
    ensures step.a < |s.acts| && step.a < |Next(s, step).acts|
    ensures GivenUp(s.acts[step.a].phase) ==> GivenUp(Next(s, step).acts[step.a].phase)
    ensures step.DeadLetter? ==> GivenUp(Next(s, step).acts[step.a].phase)
    ensures Next(s, step).dlq == if step.DeadLetter? then s.dlq + [s.acts[step.a].env] else s.dlq
  {
  }

  lemma DeliveredStays(acts: seq<Activity>, acts': seq<Activity>, e: Envelope)
    requires |acts| <= |acts'|
    requires forall a :: 0 <= a < |acts| ==>
      acts'[a].env == acts[a].env && (GivenUp(acts[a].phase) ==> GivenUp(acts'[a].phase))
    requires WasDelivered(acts, e)
    ensures WasDelivered(acts', e)
  {
    var a :| 0 <= a < |acts| && acts[a].env == e && GivenUp(acts[a].phase);
    assert acts'[a].env == e;
  }

  lemma ShelfMove(s: State, step: Step)
    requires ShelfInv(s) && Enabled(s, step) && IsMove(step)
    ensures ShelfInv(Next(s, step))
  {
    var s' := Next(s, step);
    MoveFrame(s, step);
    GivenUpForGood(s, step);
    forall i | 0 <= i < |s'.dlq| ensures WasDelivered(s'.acts, s'.dlq[i]) {
      if i < |s.dlq| {
        DeliveredStays(s.acts, s'.acts, s.dlq[i]);
      } else {
        assert s'.acts[step.a].env == s'.dlq[i];
      }
    }
  }

  lemma ShelfOther(s: State, step: Step)
    requires ShelfInv(s) && Enabled(s, step) && !IsMove(step)
    ensures ShelfInv(Next(s, step))
  {
    var s' := Next(s, step);
    OtherFrame(s, step);
    assert forall a :: 0 <= a < |s.acts| ==> s'.acts[a] == s'.acts[..|s.acts|][a] == s.acts[a];
    forall i | 0 <= i < |s'.dlq| ensures WasDelivered(s'.acts, s'.dlq[i]) {
      DeliveredStays(s.acts, s'.acts, s.dlq[i]);
    }
  }

  lemma {:induction false} ShelfRun(s: State, steps: seq<Step>)
    requires ShelfInv(s) && ValidRun(s, steps)
    ensures ShelfInv(Run(s, steps))
    decreases steps
  {
    if steps != [] {
      if IsMove(steps[0]) { ShelfMove(s, steps[0]); } else { ShelfOther(s, steps[0]); }
      ShelfRun(Next(s, steps[0]), steps[1..]);
    }
  }

  /** In every reachable state no envelope is scheduled twice, and every DLQ entry is, attempt number
      included, the envelope of some delivery that has given its task up. */
  lemma ShelvesAreSound(s: State)
    requires Reachable(s)
    ensures forall i, j :: 0 <= i < j < |s.sched| ==> s.sched[i] != s.sched[j]
    ensures forall e :: e in s.dlq ==> WasDelivered(s.acts, e)
  {
    var steps :| ValidRun(INIT, steps) && Run(INIT, steps) == s;
    ShelfRun(INIT, steps);
  }

  /** A submission that is delayed is in the scheduled set and nowhere in the stream. */
  ghost predicate OnlyScheduled(s: State, env: Envelope) {
    && env in s.sched
    && (forall i :: 0 <= i < |s.stream| ==> s.stream[i].env.taskId != env.taskId)
    && (forall a :: 0 <= a < |s.acts| ==> s.acts[a].env.taskId != env.taskId)
    && env.taskId in s.published
  }

  predicate PromotesTask(s: State, step: Step, task: TaskId) {
    step.Promote? && step.index < |s.sched| && s.sched[step.index].taskId == task
  }

  predicate NeverPromoted(s: State, steps: seq<Step>, task: TaskId)
    requires ValidRun(s, steps)
    decreases steps
  {
    steps == [] || (!PromotesTask(s, steps[0], task) && NeverPromoted(Next(s, steps[0]), steps[1..], task))
  }

  lemma WaitMove(s: State, step: Step, env: Envelope)
    requires OnlyScheduled(s, env) && Enabled(s, step) && IsMove(step)
    ensures OnlyScheduled(Next(s, step), env)
  {
    MoveFrame(s, step);
    if step.Schedule? { StaysScheduled(s.sched, NextAttempt(s.acts[step.a].env), env); }
  }

  lemma StaysScheduled(sched: seq<Envelope>, e: Envelope, env: Envelope)
    requires env in sched
    ensures env in ScheduleEnvelope(sched, e)
  {
  }

  lemma WaitOther(s: State, step: Step, env: Envelope)
    requires OnlyScheduled(s, env) && Enabled(s, step) && !IsMove(step) && !PromotesTask(s, step, env.taskId)
    ensures OnlyScheduled(Next(s, step), env)
  {
    match step
    case Promote(index) => PromotedOther(s, index, env);
    case Submit(e, delayed) => if delayed { StaysScheduled(s.sched, e, env); }
    case _ =>
  }

  lemma PromotedOther(s: State, index: nat, env: Envelope)
    requires OnlyScheduled(s, env) && index < |s.sched| && s.sched[index].taskId != env.taskId
    ensures OnlyScheduled(Next(s, Promote(index)), env)
  {
    var k :| 0 <= k < |s.sched| && s.sched[k] == env;
    var rest := s.sched[..index] + s.sched[index + 1..];
    assert rest[if k < index then k else k - 1] == env;
  }

  lemma {:induction false} WaitRun(s: State, steps: seq<Step>, env: Envelope)
    requires OnlyScheduled(s, env) && ValidRun(s, steps) && NeverPromoted(s, steps, env.taskId)
    ensures OnlyScheduled(Run(s, steps), env)
    decreases steps
  {
    if steps != [] {
      if IsMove(steps[0]) { WaitMove(s, steps[0], env); } else { WaitOther(s, steps[0], env); }
      WaitRun(Next(s, steps[0]), steps[1..], env);
    }
  }

  lemma SubmittedOnlyScheduled(s: State, env: Envelope)
    requires EnvelopeInv(s) && Enabled(s, Submit(env, true))
    ensures OnlyScheduled(Next(s, Submit(env, true)), env)
  {
    forall i | 0 <= i < |s.stream| ensures s.stream[i].env.taskId != env.taskId {
      assert KnownBelow(s.published, s.stream[i].env);
    }
    forall a | 0 <= a < |s.acts| ensures s.acts[a].env.taskId != env.taskId {
      assert KnownUpTo(s.published, s.acts[a].env);
    }
  }

  /** A delayed submission waits in the scheduled set, unseen by the stream and by every worker, for as
      long as it is not promoted; one without delay is in the stream at once. */
  lemma DelayedUntilPromoted(s: State, env: Envelope, steps: seq<Step>)
    requires Reachable(s) && Enabled(s, Submit(env, true)) && ValidRun(Next(s, Submit(env, true)), steps)
    requires NeverPromoted(Next(s, Submit(env, true)), steps, env.taskId)
    ensures var s' := Run(Next(s, Submit(env, true)), steps);
      && env in s'.sched
      && (forall i :: 0 <= i < |s'.stream| ==> s'.stream[i].env.taskId != env.taskId)
      && (forall a :: 0 <= a < |s'.acts| ==> s'.acts[a].env.taskId != env.taskId)
    ensures Next(s, Submit(env, false)).stream == s.stream + [Entry(env, Waiting)]
  {
    var before :| ValidRun(INIT, before) && Run(INIT, before) == s;
    DeliveryRun(INIT, before);
    SubmittedOnlyScheduled(s, env);
    WaitRun(Next(s, Submit(env, true)), steps, env);
  }
}
