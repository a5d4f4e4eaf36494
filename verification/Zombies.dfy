/** What the fence does and what it does not.  The design document promises that once a reclaimer has
    a higher fence the zombie can never commit.  The code compares the fence only with a row that is already
    there: a zombie that comes after that row fails for good, a zombie that commits first wins. */
module Zombies {
  import opened Envelopes
  import opened OwnerStrings
  import opened Store
  import opened Protocol
  import opened Fencing
  import opened Effects
  import Leases

  /** Worker `w` has run the task under fence 1 and holds the result `r`, not yet committed. */
  function Stalled(e: Envelope, w: string, r: string): State {
    State(Leases.Leases(1, map[e.taskId := StoredOwner(w, 1)]), [Entry(e, InFlight)], [], [],
          Tables(map[e.taskId := TaskRow(e.queue, e.dedupKey, Leased, 1)],
                 map[(e.taskId, 1) := AttemptRow(w, 1, Unfinished)], map[]),
          [Activity(w, 0, e, HandlerDone(1, r))], [Grant(e.taskId, w)], map[e.taskId := e])
  }

  /** The message has just been delivered to worker `w`. */
  function Fresh(e: Envelope, w: string): State {
    State(Leases.Leases(0, map[]), [Entry(e, InFlight)], [], [],
          Tables(map[e.taskId := TaskRow(e.queue, e.dedupKey, Pending, 0)], map[], map[]),
          [Activity(w, 0, e, Received)], [], map[e.taskId := e])
  }

  /** The task has its row and its message is in the stream. */
  function Submitted(e: Envelope): State {
    State(Leases.Leases(0, map[]), [Entry(e, Waiting)], [], [],
          Tables(map[e.taskId := TaskRow(e.queue, e.dedupKey, Pending, 0)], map[], map[]),
          [], [], map[e.taskId := e])
  }

  lemma SubmittedIsReachable(e: Envelope)
    requires e.attempt == 0
    ensures Reachable(Submitted(e))
  {
    assert ValidRun(INIT, []) && Run(INIT, []) == INIT;
    var row := TaskRow(e.queue, e.dedupKey, Pending, 0);
    ReachableNext(INIT, CreateRow(e.taskId, row));
    var s1 := Next(INIT, CreateRow(e.taskId, row));
    ReachableNext(s1, Submit(e, false));
    assert Next(s1, Submit(e, false)) == Submitted(e);
  }

  lemma FreshFollows(e: Envelope, w: string)
    requires e.attempt == 0
    ensures LeadsTo(Submitted(e), Fresh(e, w))
  {
    assert ValidRun(Submitted(e), []) && Run(Submitted(e), []) == Submitted(e);
    LeadsNext(Submitted(e), Submitted(e), Deliver(w, 0));
    assert Next(Submitted(e), Deliver(w, 0)) == Fresh(e, w);
  }

  /** It has acquired the lease, under fence 1. */
  function Leased1(e: Envelope, w: string): State {
    Fresh(e, w).(
      leases := Leases.Leases(1, map[e.taskId := StoredOwner(w, 1)]),
      acts := [Activity(w, 0, e, Holding(1))],
      grants := [Grant(e.taskId, w)])
  }

  lemma LeasedFollows(e: Envelope, w: string)
    requires e.attempt == 0
    ensures LeadsTo(Submitted(e), Leased1(e, w))
  {
    FreshFollows(e, w);
    LeadsNext(Submitted(e), Fresh(e, w), Acquire(0));
    assert Next(Fresh(e, w), Acquire(0)) == Leased1(e, w);
  }

  lemma ExecutingFollows(e: Envelope, w: string)
    requires e.attempt == 0
    ensures LeadsTo(Submitted(e), Stalled(e, w, "").(acts := [Activity(w, 0, e, Executing(1))]))
  {
    LeasedFollows(e, w);
    var s := Leased1(e, w);
    LeadsNext(Submitted(e), s, Record(0, true, true, ""));
    assert Next(s, Record(0, true, true, "")) == Stalled(e, w, "").(acts := [Activity(w, 0, e, Executing(1))]);
  }

  lemma StalledFollows(e: Envelope, w: string, r: string)
    requires e.attempt == 0
    ensures LeadsTo(Submitted(e), Stalled(e, w, r))
  {
    ExecutingFollows(e, w);
    var s := Stalled(e, w, "").(acts := [Activity(w, 0, e, Executing(1))]);
    LeadsNext(Submitted(e), s, Handle(0, Success(r)));
    assert Next(s, Handle(0, Success(r))) == Stalled(e, w, r);
  }

  /** The lease has expired and worker `w'` has reclaimed the message under fence 2. */
  function Superseded(e: Envelope, w: string, r: string, w': string): State {
    Stalled(e, w, r).(
      leases := Leases.Leases(2, map[e.taskId := StoredOwner(w', 2)]),
      acts := [Activity(w, 0, e, HandlerDone(1, r)), Activity(w', 0, NextAttempt(e), Holding(2))],
      grants := [Grant(e.taskId, w), Grant(e.taskId, w')])
  }

  lemma SupersededFollows(e: Envelope, w: string, r: string, w': string)
    requires e.attempt == 0
    ensures LeadsTo(Submitted(e), Superseded(e, w, r, w'))
  {
    StalledFollows(e, w, r);
    var s0 := Stalled(e, w, r);
    LeadsNext(Submitted(e), s0, Expire(e.taskId));
    var s1 := Next(s0, Expire(e.taskId));
    LeadsNext(Submitted(e), s1, Reclaim(w', 0));
    var s2 := Next(s1, Reclaim(w', 0));
    LeadsNext(Submitted(e), s2, CloseLost(1, true));
    var s3 := Next(s2, CloseLost(1, true));
    LeadsNext(Submitted(e), s3, Acquire(1));
    assert Next(s3, Acquire(1)) == Superseded(e, w, r, w');
  }

  lemma ZombieInserts(e: Envelope, w: string, r: string, w': string) returns (s: State)
    requires e.attempt == 0
    ensures LeadsTo(Submitted(e), s)
    ensures s == Superseded(e, w, r, w').(acts :=
      [Activity(w, 0, e, EffectInserted(1, r)), Activity(w', 0, NextAttempt(e), Holding(2))])
  {
    SupersededFollows(e, w, r, w');
    var s0 := Superseded(e, w, r, w');
    LeadsNext(Submitted(e), s0, Select(0, true, ""));
    var s1 := Next(s0, Select(0, true, ""));
    LeadsNext(Submitted(e), s1, Insert(0, true, ""));
    s := Next(s1, Insert(0, true, ""));
  }

  /** For every task, every pair of workers and every result: the superseded zombie commits. */
  lemma ZombieCanCommit(e: Envelope, w: string, r: string, w': string) returns (s: State)
    requires e.attempt == 0
    ensures Reachable(s) && |s.grants| == 2 && |s.acts| == 2 && s.acts[1].phase == Holding(2)
    ensures s.tables.effects == map[EffectKey(e) := EffectRow(e.taskId, 1, r)]
  {
    var s0 := ZombieInserts(e, w, r, w');
    SubmittedIsReachable(e);
    ReachableVia(Submitted(e), s0);
    ReachableNext(s0, Commit(0, true, true, ""));
    s := Next(s0, Commit(0, true, true, ""));
    EffectsOfStep(s0, Commit(0, true, true, ""));
  }

  /** What a commit left alone comes to, exactly: without a row for its key an activity with a result
      writes one, whatever its own fence and everybody else's; with a row of no higher fence it
      reports success and writes nothing; with a row of a higher fence it fails. */
  lemma CommitsIffNoRow(s: State, a: nat, error: string)
    requires a < |s.acts| && s.acts[a].phase.HandlerDone? && !Blocked(s, a)
    ensures var key, f, r := Key(s, a), s.acts[a].phase.fence, s.acts[a].phase.result;
      var s1 := Next(s, Select(a, true, error));
      if key !in s.tables.effects then
        && Enabled(s1, Insert(a, true, error))
        && var s2 := Next(s1, Insert(a, true, error));
        && Enabled(s2, Commit(a, true, true, error))
        && Next(s2, Commit(a, true, true, error)).tables.effects ==
             s.tables.effects[key := EffectRow(s.acts[a].env.taskId, f, r)]
        && Next(s2, Commit(a, true, true, error)).acts[a].phase == Settled(f, true, "")
      else if s.tables.effects[key].fence <= f then
        && s1.tables == s.tables && Enabled(s1, Commit(a, true, true, error))
        && Next(s1, Commit(a, true, true, error)).tables.effects == s.tables.effects
        && Next(s1, Commit(a, true, true, error)).acts[a].phase == Settled(f, true, "")
      else
        s1.tables == s.tables && s1.acts[a].phase == Settled(f, false, error)
  {
    var s1 := Next(s, Select(a, true, error));
    if Key(s, a) !in s.tables.effects {
      assert !Blocked(s1, a) by {
        forall b | 0 <= b < |s1.acts| && b != a ensures s1.acts[b] == s.acts[b] {}
      }
      var s2 := Next(s1, Insert(a, true, error));
      EffectsOfStep(s2, Commit(a, true, true, error));
    } else if s.tables.effects[Key(s, a)].fence <= s.acts[a].phase.fence {
      EffectsOfStep(s1, Commit(a, true, true, error));
    }
  }

  /** Phases in which an activity that still has its fence has success in hand. */
  predicate Vouching(p: Phase) {
    p.EffectPresent? || (p.Settled? && p.success)
  }

  predicate RowUpTo(effects: map<string, EffectRow>, key: string, fence: nat) {
    key in effects && effects[key].fence <= fence
  }

  /** Success is never in hand below the fence of the row. */
  ghost predicate VouchedInv(s: State) {
    forall a :: 0 <= a < |s.acts| && Vouching(s.acts[a].phase) ==>
      RowUpTo(s.tables.effects, Key(s, a), s.acts[a].phase.fence)
  }

  lemma VouchingPhases(s: State, step: Step)
    requires Enabled(s, step) && IsMove(step) && Vouching(Next(s, step).acts[step.a].phase)
    ensures var p, p' := s.acts[step.a].phase, Next(s, step).acts[step.a].phase;
      && HasFence(p) && p'.fence == p.fence
      && (Vouching(p) || RowUpTo(s.tables.effects, Key(s, step.a), p.fence) || Writes(s, step, Key(s, step.a)))
  {
  }

  /** Effect rows that are there stay as they are. */
  ghost predicate RowsStay(effects: map<string, EffectRow>, effects': map<string, EffectRow>) {
    forall key :: key in effects ==> key in effects' && effects'[key] == effects[key]
  }

  lemma RowsOfStep(s: State, step: Step)
    requires EffectInv(s) && Enabled(s, step)
    ensures RowsStay(s.tables.effects, Next(s, step).tables.effects)
    ensures IsMove(step) && Writes(s, step, Key(s, step.a)) ==>
      RowUpTo(Next(s, step).tables.effects, Key(s, step.a), s.acts[step.a].phase.fence)
  {
    EffectsOfStep(s, step);
  }

  lemma VouchedMoved(s: State, s': State, a: nat, p': Phase)
    requires VouchedInv(s) && a < |s.acts| && s'.acts == s.acts[a := s.acts[a].(phase := p')]
    requires RowsStay(s.tables.effects, s'.tables.effects)
    requires Vouching(p') ==> RowUpTo(s'.tables.effects, Key(s, a), p'.fence)
    ensures VouchedInv(s')
  {
    forall b | 0 <= b < |s'.acts| && Vouching(s'.acts[b].phase)
      ensures RowUpTo(s'.tables.effects, Key(s', b), s'.acts[b].phase.fence)
    {
      if b != a { assert RowUpTo(s.tables.effects, Key(s, b), s.acts[b].phase.fence); }
    }
  }

  lemma VouchedMove(s: State, step: Step)
    requires VouchedInv(s) && EffectInv(s) && Enabled(s, step) && IsMove(step)
    ensures VouchedInv(Next(s, step))
  {
    MoveFrame(s, step);
    RowsOfStep(s, step);
    if Vouching(Next(s, step).acts[step.a].phase) { VouchingPhases(s, step); }
    VouchedMoved(s, Next(s, step), step.a, Next(s, step).acts[step.a].phase);
  }

  lemma VouchedOther(s: State, step: Step)
    requires VouchedInv(s) && EffectInv(s) && Enabled(s, step) && !IsMove(step)
    ensures VouchedInv(Next(s, step))
  {
    var s' := Next(s, step);
    RowsOfStep(s, step);
    OtherFrame(s, step);
    forall b | 0 <= b < |s'.acts| && Vouching(s'.acts[b].phase)
      ensures RowUpTo(s'.tables.effects, Key(s', b), s'.acts[b].phase.fence)
    {
      assert s'.acts[b] == s'.acts[..|s.acts|][b] == s.acts[b];
      assert RowUpTo(s.tables.effects, Key(s, b), s.acts[b].phase.fence);
    }
  }

  lemma VouchedStep(s: State, step: Step)
    requires VouchedInv(s) && EffectInv(s) && Enabled(s, step)
    ensures VouchedInv(Next(s, step))
  {
    if IsMove(step) { VouchedMove(s, step); } else { VouchedOther(s, step); }
  }

  lemma {:induction false} VouchedRun(s: State, steps: seq<Step>)
    requires VouchedInv(s) && EffectInv(s) && ValidRun(s, steps)
    ensures VouchedInv(Run(s, steps)) && EffectInv(Run(s, steps))
    decreases steps
  {
    if steps != [] {
      VouchedStep(s, steps[0]);
      EffectStep(s, steps[0]);
      VouchedRun(Next(s, steps[0]), steps[1..]);
    }
  }

  /** An activity holds a fence below the one its effect was committed under. */
  predicate Superfluous(s: State, a: nat) {
    && a < |s.acts| && HasFence(s.acts[a].phase)
    && Key(s, a) in s.tables.effects && s.tables.effects[Key(s, a)].fence > s.acts[a].phase.fence
  }

  /** Such an activity, or what becomes of it when it has returned. */
  ghost predicate Doomed(s: State, a: nat) {
    && a < |s.acts| && Key(s, a) in s.tables.effects
    && !Vouches(s.acts[a].phase) && !s.acts[a].phase.EffectInserted?
    && !s.acts[a].phase.Adopted? && !s.acts[a].phase.Received?
    && (HasFence(s.acts[a].phase) ==> s.tables.effects[Key(s, a)].fence > s.acts[a].phase.fence)
  }

  lemma DoomedMove(s: State, step: Step)
    requires EffectInv(s) && Enabled(s, step) && IsMove(step) && Doomed(s, step.a)
    ensures step.a < |Next(s, step).acts|
    ensures var p, p' := s.acts[step.a].phase, Next(s, step).acts[step.a].phase;
      && !Vouches(p') && !p'.EffectInserted? && !p'.Adopted? && !p'.Received?
      && (HasFence(p') ==> HasFence(p) && p'.fence == p.fence)
  {
  }

  lemma DoomedStep(s: State, step: Step, a: nat)
    requires EffectInv(s) && Enabled(s, step) && Doomed(s, a)
    ensures Doomed(Next(s, step), a) && Key(Next(s, step), a) == Key(s, a)
    ensures Next(s, step).tables.effects[Key(s, a)] == s.tables.effects[Key(s, a)]
  {
    var s' := Next(s, step);
    WrittenExactlyOnce(s, [step], Key(s, a));
    assert Run(s, [step]) == s';
    if IsMove(step) {
      MoveFrame(s, step);
      if step.a == a { DoomedMove(s, step); }
    } else {
      OtherFrame(s, step);
      assert s'.acts[a] == s'.acts[..|s.acts|][a];
    }
  }

  lemma {:induction false} DoomedRun(s: State, steps: seq<Step>, a: nat)
    requires EffectInv(s) && ValidRun(s, steps) && Doomed(s, a)
    ensures var s' := Run(s, steps);
      Doomed(s', a) && Key(s', a) == Key(s, a) && s'.tables.effects[Key(s, a)] == s.tables.effects[Key(s, a)]
    decreases steps
  {
    if steps != [] {
      DoomedStep(s, steps[0], a);
      EffectStep(s, steps[0]);
      DoomedRun(Next(s, steps[0]), steps[1..], a);
    }
  }

  /** Fencing over whole runs: wherever in its code a worker stands when an effect with a higher fence
      than its own is in, it never gets another row in and never reports success, whatever anybody
      does for the rest of the run. */
  lemma ZombieNeverSucceeds(s: State, steps: seq<Step>, a: nat)
    requires Reachable(s) && ValidRun(s, steps) && Superfluous(s, a)
    ensures a < |Run(s, steps).acts|
    ensures var p := Run(s, steps).acts[a].phase; !p.EffectInserted? && (p.Settled? || p.Returned? ==> !p.success)
    ensures Key(s, a) in Run(s, steps).tables.effects
    ensures Run(s, steps).tables.effects[Key(s, a)] == s.tables.effects[Key(s, a)]
  {
    var before :| ValidRun(INIT, before) && Run(INIT, before) == s;
    VouchedRun(INIT, before);
    assert Vouching(s.acts[a].phase) ==> RowUpTo(s.tables.effects, Key(s, a), s.acts[a].phase.fence);
    assert Doomed(s, a);
    DoomedRun(s, steps, a);
  }
}
