/** Every task ends: once crashes and reclaims stop, the work left in the system is finite, and when
    it is used up every published task has its effect or is in the DLQ. */
module Progress {
  import opened Envelopes
  import opened Protocol
  import opened Deliveries
  import opened Provenance

  function Sum(xs: seq<nat>): nat {
    if xs == [] then 0 else Sum(xs[..|xs| - 1]) + xs[|xs| - 1]
  }

  lemma {:induction false} SumUpdate(xs: seq<nat>, i: nat, x: nat)
    requires i < |xs|
    ensures Sum(xs[i := x]) + xs[i] == Sum(xs) + x
  {
    var last := |xs| - 1;
    if i == last {
      assert xs[i := x][..last] == xs[..last];
    } else {
      assert xs[i := x][..last] == xs[..last][i := x];
      SumUpdate(xs[..last], i, x);
    }
  }

  lemma SumAppend(xs: seq<nat>, x: nat)
    ensures Sum(xs + [x]) == Sum(xs) + x
  {
    assert (xs + [x])[..|xs|] == xs;
  }

  lemma {:induction false} SumRemove(xs: seq<nat>, i: nat)
    requires i < |xs|
    ensures Sum(xs[..i] + xs[i + 1..]) + xs[i] == Sum(xs)
  {
    var last := |xs| - 1;
    if i == last {
      assert xs[..i] + xs[i + 1..] == xs[..last];
    } else {
      var rest := xs[..i] + xs[i + 1..];
      assert rest[..|rest| - 1] == xs[..last][..i] + xs[..last][i + 1..];
      SumRemove(xs[..last], i);
    }
  }

  lemma {:induction false} SumZero(xs: seq<nat>)
    requires forall i :: 0 <= i < |xs| ==> xs[i] == 0
    ensures Sum(xs) == 0
  {
    if xs != [] { SumZero(xs[..|xs| - 1]); }
  }

  /** Deliveries an envelope can still lead to, itself included. */
  function Left(e: Envelope): nat {
    if e.attempt < Limit(e.policy) then Limit(e.policy) - e.attempt else 0
  }

  /** What is counted: all deliveries still to come, those of one task, the retries of one task, or
      the copies of one task that are under way. */
  datatype Count =
    | AllDeliveries
    | DeliveriesOf(task: TaskId)
    | RetriesOf(task: TaskId)
    | CopiesOf(task: TaskId)

  predicate Counts(c: Count, task: TaskId) {
    c.AllDeliveries? || c.task == task
  }

  /** What a stored envelope counts for. */
  function Stored(e: Envelope, c: Count): nat {
    if !Counts(c, e.taskId) then 0
    else if c.CopiesOf? then 1
    else if c.RetriesOf? then Left(NextAttempt(e))
    else Left(e)
  }

  /** What an envelope counts for while an activity works on it and may still hand it on. */
  function Carried(e: Envelope, c: Count): nat {
    if !Counts(c, e.taskId) then 0 else if c.CopiesOf? then 1 else Left(NextAttempt(e))
  }

  function EntryLeft(x: Entry, c: Count): nat {
    if x.status.Waiting? then Stored(x.env, c) else 0
  }

  function ActLeft(x: Activity, c: Count): nat {
    if HandedOver(x.phase) then 0 else Carried(x.env, c)
  }

  function StreamWeights(xs: seq<Entry>, c: Count): seq<nat> {
    seq(|xs|, i requires 0 <= i < |xs| => EntryLeft(xs[i], c))
  }

  function SchedWeights(xs: seq<Envelope>, c: Count): seq<nat> {
    seq(|xs|, i requires 0 <= i < |xs| => Stored(xs[i], c))
  }

  function ActWeights(xs: seq<Activity>, c: Count): seq<nat> {
    seq(|xs|, i requires 0 <= i < |xs| => ActLeft(xs[i], c))
  }

  function Budget(s: State, c: Count): nat {
    Sum(StreamWeights(s.stream, c)) + Sum(SchedWeights(s.sched, c)) + Sum(ActWeights(s.acts, c))
  }

  /** Steps an activity is at most away from its end. */
  function Remaining(p: Phase): nat {
    match p
    case Adopted => 13
    case Received => 12
    case Holding(_) => 11
    case Executing(_) => 10
    case HandlerDone(_, _) => 9
    case EffectAbsent(_, _) => 8
    case EffectInserted(_, _) => 7
    case EffectPresent(_) => 7
    case HandlerFailed(_, _, _) => 7
    case Settled(_, _, _) => 6
    case Returned(_, _) => 5
    case DeadLettered => 2
    case Handled => 1
    case Finished => 0
  }

  function PhaseWeights(xs: seq<Activity>): seq<nat> {
    seq(|xs|, i requires 0 <= i < |xs| => Remaining(xs[i].phase))
  }

  /** Everything the system can still do without crashes, reclaims and new submissions. */
  function Rank(s: State): nat {
    20 * Budget(s, AllDeliveries) + Sum(PhaseWeights(s.acts)) + |s.sched|
  }

  /** Work: deliveries, promotions and the code of the activities. */
  predicate Work(step: Step) {
    !(step.CreateRow? || step.Submit? || step.Reclaim? || step.Expire? || step.Crash?)
  }

  lemma ActsMoved(xs: seq<Activity>, a: nat, x: Activity, c: Count)
    requires a < |xs|
    ensures Sum(ActWeights(xs[a := x], c)) + ActLeft(xs[a], c) == Sum(ActWeights(xs, c)) + ActLeft(x, c)
    ensures Sum(PhaseWeights(xs[a := x])) + Remaining(xs[a].phase) == Sum(PhaseWeights(xs)) + Remaining(x.phase)
  {
    assert ActWeights(xs[a := x], c) == ActWeights(xs, c)[a := ActLeft(x, c)];
    SumUpdate(ActWeights(xs, c), a, ActLeft(x, c));
    assert PhaseWeights(xs[a := x]) == PhaseWeights(xs)[a := Remaining(x.phase)];
    SumUpdate(PhaseWeights(xs), a, Remaining(x.phase));
  }

  lemma ActAdded(xs: seq<Activity>, x: Activity, c: Count)
    ensures Sum(ActWeights(xs + [x], c)) == Sum(ActWeights(xs, c)) + ActLeft(x, c)
    ensures Sum(PhaseWeights(xs + [x])) == Sum(PhaseWeights(xs)) + Remaining(x.phase)
  {
    assert ActWeights(xs + [x], c) == ActWeights(xs, c) + [ActLeft(x, c)];
    SumAppend(ActWeights(xs, c), ActLeft(x, c));
    assert PhaseWeights(xs + [x]) == PhaseWeights(xs) + [Remaining(x.phase)];
    SumAppend(PhaseWeights(xs), Remaining(x.phase));
  }

  lemma EntryChanged(xs: seq<Entry>, i: nat, x: Entry, c: Count)
    requires i < |xs|
    ensures Sum(StreamWeights(xs[i := x], c)) + EntryLeft(xs[i], c) ==
      Sum(StreamWeights(xs, c)) + EntryLeft(x, c)
  {
    assert StreamWeights(xs[i := x], c) == StreamWeights(xs, c)[i := EntryLeft(x, c)];
    SumUpdate(StreamWeights(xs, c), i, EntryLeft(x, c));
  }

  lemma EntryAdded(xs: seq<Entry>, x: Entry, c: Count)
    ensures Sum(StreamWeights(xs + [x], c)) == Sum(StreamWeights(xs, c)) + EntryLeft(x, c)
  {
    assert StreamWeights(xs + [x], c) == StreamWeights(xs, c) + [EntryLeft(x, c)];
    SumAppend(StreamWeights(xs, c), EntryLeft(x, c));
  }

  lemma SchedAdded(xs: seq<Envelope>, e: Envelope, c: Count)
    ensures Sum(SchedWeights(ScheduleEnvelope(xs, e), c)) <= Sum(SchedWeights(xs, c)) + Stored(e, c)
    ensures |ScheduleEnvelope(xs, e)| <= |xs| + 1
  {
    assert SchedWeights(xs + [e], c) == SchedWeights(xs, c) + [Stored(e, c)];
    SumAppend(SchedWeights(xs, c), Stored(e, c));
  }

  lemma SchedRemoved(xs: seq<Envelope>, i: nat, c: Count)
    requires i < |xs|
    ensures Sum(SchedWeights(xs[..i] + xs[i + 1..], c)) + Stored(xs[i], c) == Sum(SchedWeights(xs, c))
  {
    var ws := SchedWeights(xs, c);
    assert SchedWeights(xs[..i] + xs[i + 1..], c) == ws[..i] + ws[i + 1..];
    SumRemove(ws, i);
  }

  predicate HandedOver(p: Phase) {
    p.DeadLettered? || p.Handled? || p.Finished?
  }

  /** Every step of an activity's own code brings it closer to its end, and once it has handed its
      task over it does not take it back. */
  lemma PhaseProgress(s: State, step: Step)
    requires Enabled(s, step) && IsMove(step)
    ensures step.a < |s.acts| && step.a < |Next(s, step).acts|
    ensures var p, p' := s.acts[step.a].phase, Next(s, step).acts[step.a].phase;
      && (HandedOver(p) ==> HandedOver(p'))
      && (Work(step) ==> Remaining(p') < Remaining(p))
      && (step.Schedule? ==> HandedOver(p') && !HandedOver(p) && Remaining(p') + 4 <= Remaining(p))
  {
  }

  lemma MoveBudget(s: State, step: Step, c: Count)
    requires Enabled(s, step) && IsMove(step)
    ensures Budget(Next(s, step), c) + (if c.RetriesOf? && Retries(s, step, c.task) then 1 else 0) <= Budget(s, c)
  {
    var s' := Next(s, step);
    MoveFrame(s, step);
    PhaseProgress(s, step);
    ActsMoved(s.acts, step.a, s'.acts[step.a], c);
    if step.Ack? {
      var m := s.acts[step.a].msg;
      EntryChanged(s.stream, m, s.stream[m].(status := Acked), c);
    }
    if step.Schedule? {
      SchedAdded(s.sched, NextAttempt(s.acts[step.a].env), c);
    }
  }

  /** An activity's own work brings it closer to its end; a retry uses one up. */
  lemma MoveSums(s: State, step: Step, c: Count)
    requires Enabled(s, step) && IsMove(step)
    ensures var s' := Next(s, step);
      && Budget(s', c) + (if c.RetriesOf? && Retries(s, step, c.task) then 1 else 0) <= Budget(s, c)
      && Sum(PhaseWeights(s'.acts)) + |s'.sched| + (if Work(step) then 1 else 0) <=
           Sum(PhaseWeights(s.acts)) + |s.sched|
  {
    MoveBudget(s, step, c);
    MoveFrame(s, step);
    PhaseProgress(s, step);
    ActsMoved(s.acts, step.a, Next(s, step).acts[step.a], c);
    if step.Schedule? {
      SchedAdded(s.sched, NextAttempt(s.acts[step.a].env), c);
    }
  }

  lemma DeliverSums(s: State, worker: string, msg: nat, c: Count)
    requires EnvelopeInv(s) && Enabled(s, Deliver(worker, msg))
    ensures Budget(Next(s, Deliver(worker, msg)), c) +
      (if (c.AllDeliveries? || c.DeliveriesOf?) && Counts(c, s.stream[msg].env.taskId) then 1 else 0) <= Budget(s, c)
    ensures Sum(PhaseWeights(Next(s, Deliver(worker, msg)).acts)) == Sum(PhaseWeights(s.acts)) + 12
  {
    var entry := s.stream[msg];
    assert KnownBelow(s.published, entry.env);
    EntryChanged(s.stream, msg, entry.(status := InFlight), c);
    ActAdded(s.acts, Activity(worker, msg, entry.env, Received), c);
  }

  lemma PromoteSums(s: State, i: nat, c: Count)
    requires Enabled(s, Promote(i))
    ensures Budget(Next(s, Promote(i)), c) == Budget(s, c)
    ensures |Next(s, Promote(i)).sched| == |s.sched| - 1
  {
    SchedRemoved(s.sched, i, c);
    EntryAdded(s.stream, Entry(s.sched[i], Waiting), c);
  }

  lemma SubmitSums(s: State, env: Envelope, delayed: bool, c: Count)
    requires Enabled(s, Submit(env, delayed))
    ensures Budget(Next(s, Submit(env, delayed)), c) <= Budget(s, c) + Stored(env, c)
    ensures |Next(s, Submit(env, delayed)).sched| <= |s.sched| + 1
  {
    if delayed { SchedAdded(s.sched, env, c); } else { EntryAdded(s.stream, Entry(env, Waiting), c); }
  }

  lemma ReclaimSums(s: State, worker: string, msg: nat, c: Count)
    requires Enabled(s, Reclaim(worker, msg))
    ensures Budget(Next(s, Reclaim(worker, msg)), c) == Budget(s, c) + Carried(NextAttempt(s.stream[msg].env), c)
    ensures Sum(PhaseWeights(Next(s, Reclaim(worker, msg)).acts)) == Sum(PhaseWeights(s.acts)) + 13
  {
    ActAdded(s.acts, Activity(worker, msg, NextAttempt(s.stream[msg].env), Adopted), c);
  }

  /** What a submission or a reclaim adds to the work there is; nothing else adds any. */
  function Added(s: State, step: Step): nat
    requires Enabled(s, step)
  {
    match step
    case Submit(env, _) => 20 * Limit(env.policy) + 1
    case Reclaim(_, msg) => 20 * Left(NextAttempt(NextAttempt(s.stream[msg].env))) + 13
    case _ => 0
  }

  /** Work uses the system up, and crashes, lease expiry and new task rows do not refill it. */
  lemma RankStep(s: State, step: Step)
    requires EnvelopeInv(s) && Enabled(s, step)
    ensures Rank(Next(s, step)) + (if Work(step) then 1 else 0) <= Rank(s) + Added(s, step)
  {
    match step
    case Deliver(worker, msg) => DeliverSums(s, worker, msg, AllDeliveries);
    case Promote(i) => PromoteSums(s, i, AllDeliveries);
    case Submit(env, delayed) => SubmitSums(s, env, delayed, AllDeliveries);
    case Reclaim(worker, msg) => ReclaimSums(s, worker, msg, AllDeliveries);
    case CreateRow(_, _) =>
    case Expire(_) =>
    case _ => MoveSums(s, step, AllDeliveries);
  }

  function WorkCount(steps: seq<Step>): nat {
    if steps == [] then 0 else (if Work(steps[0]) then 1 else 0) + WorkCount(steps[1..])
  }

  function TotalAdded(s: State, steps: seq<Step>): nat
    requires ValidRun(s, steps)
    decreases steps
  {
    if steps == [] then 0 else Added(s, steps[0]) + TotalAdded(Next(s, steps[0]), steps[1..])
  }

  /** Termination: in any run whatever, with crashes, lease expiry and failures anywhere, the work done
      is at most the rank at the start plus what each submission and each reclaim added. */
  lemma {:induction false} WorkIsFinite(s: State, steps: seq<Step>)
    requires EnvelopeInv(s) && ValidRun(s, steps)
    ensures WorkCount(steps) <= Rank(s) + TotalAdded(s, steps)
    decreases steps
  {
    if steps != [] {
      RankStep(s, steps[0]);
      EnvelopeStep(s, steps[0]);
      WorkIsFinite(Next(s, steps[0]), steps[1..]);
    }
  }

  /** Nothing is left to do. */
  ghost predicate Quiescent(s: State) {
    forall step :: Work(step) ==> !Enabled(s, step)
  }

  /** The step an unfinished activity can always take. */
  function NextWork(s: State, a: nat): Step
    requires a < |s.acts| && !s.acts[a].phase.Finished?
  {
    match s.acts[a].phase
    case Adopted => CloseLost(a, true)
    case Received => Acquire(a)
    case Holding(_) => Record(a, false, false, "")
    case Executing(_) => Handle(a, Success(""))
    case HandlerDone(_, _) => Select(a, true, "")
    case EffectAbsent(_, _) => Insert(a, false, "")
    case EffectInserted(_, _) => Commit(a, true, true, "")
    case EffectPresent(_) => Commit(a, true, true, "")
    case HandlerFailed(_, _, _) => Commit(a, true, true, "")
    case Settled(_, _, _) => Release(a)
    case Returned(success, _) =>
      if success then Ack(a) else if WillRetry(s.acts[a]) then Schedule(a) else DeadLetter(a)
    case DeadLettered => MarkDead(a)
    case Handled => Ack(a)
  }

  lemma UnfinishedCanWork(s: State, a: nat)
    requires EnvelopeInv(s) && a < |s.acts| && !s.acts[a].phase.Finished?
    ensures Enabled(s, NextWork(s, a)) && Work(NextWork(s, a))
  {
  }

  lemma QuiescentMeansIdle(s: State)
    requires EnvelopeInv(s) && Quiescent(s)
    ensures s.sched == []
    ensures forall i :: 0 <= i < |s.stream| ==> !s.stream[i].status.Waiting?
    ensures forall a :: 0 <= a < |s.acts| ==> s.acts[a].phase.Finished?
  {
    assert Work(Promote(0));
    forall i | 0 <= i < |s.stream| ensures !s.stream[i].status.Waiting? {
      assert Work(Deliver("", i));
    }
    forall a | 0 <= a < |s.acts| ensures s.acts[a].phase.Finished? {
      if !s.acts[a].phase.Finished? { UnfinishedCanWork(s, a); }
    }
  }

  ghost predicate Worked(acts: seq<Activity>, msg: nat) {
    exists a :: 0 <= a < |acts| && acts[a].msg == msg && !acts[a].phase.Finished?
  }

  ghost predicate Orphan(s: State, msg: nat) {
    msg < |s.stream| && s.stream[msg].status.InFlight? && !Worked(s.acts, msg)
  }

  /** The entries in flight that no activity is at work on; only a crash adds one. */
  ghost function Orphans(s: State): set<nat> {
    set msg | 0 <= msg < |s.stream| && Orphan(s, msg)
  }

  lemma OnlyAckFinishes(s: State, step: Step)
    requires Enabled(s, step) && IsMove(step) && !step.Crash?
    ensures step.a < |s.acts| && step.a < |Next(s, step).acts|
    ensures Next(s, step).acts[step.a].phase.Finished? ==> step.Ack?
  {
  }

  /** A delivery in progress goes on until its entry is acked. */
  lemma StillWorked(s: State, step: Step, msg: nat)
    requires Enabled(s, step) && !step.Crash? && msg < |Next(s, step).stream|
    requires Next(s, step).stream[msg].status.InFlight?
    ensures Worked(s.acts, msg) ==> Worked(Next(s, step).acts, msg)
  {
    var s' := Next(s, step);
    if IsMove(step) { MoveFrame(s, step); OnlyAckFinishes(s, step); } else { OtherFrame(s, step); }
    if Worked(s.acts, msg) {
      var a :| 0 <= a < |s.acts| && s.acts[a].msg == msg && !s.acts[a].phase.Finished?;
      if !IsMove(step) { assert s'.acts[a] == s'.acts[..|s.acts|][a]; }
      assert s'.acts[a].msg == msg;
    }
  }

  /** An entry gets into flight, or is reclaimed, only into somebody's hands. */
  lemma TakenIsWorked(s: State, step: Step, msg: nat)
    requires Enabled(s, step) && msg < |Next(s, step).stream| && Next(s, step).stream[msg].status.InFlight?
    ensures msg < |s.stream| && (s.stream[msg].status.InFlight? || (step.Deliver? && step.msg == msg))
    ensures (step.Deliver? || step.Reclaim?) && step.msg == msg ==> Worked(Next(s, step).acts, msg)
  {
    if IsMove(step) {
      MoveFrame(s, step);
    } else {
      OtherFrame(s, step);
      if step.Deliver? || step.Reclaim? { assert Next(s, step).acts[|s.acts|].msg == step.msg; }
    }
  }

  lemma OrphansShrink(s: State, step: Step)
    requires Enabled(s, step) && !step.Crash?
    ensures Orphans(Next(s, step)) <= Orphans(s)
    ensures step.Reclaim? ==> step.msg !in Orphans(Next(s, step))
  {
    forall msg | msg in Orphans(Next(s, step)) ensures msg in Orphans(s) && !(step.Reclaim? && step.msg == msg) {
      StillWorked(s, step, msg);
      TakenIsWorked(s, step, msg);
    }
  }

  predicate NoCrash(steps: seq<Step>) {
    forall i :: 0 <= i < |steps| ==> !steps[i].Crash?
  }

  lemma {:induction false} OrphansShrinkOverRun(s: State, steps: seq<Step>)
    requires ValidRun(s, steps) && NoCrash(steps)
    ensures Orphans(Run(s, steps)) <= Orphans(s)
    decreases steps
  {
    if steps != [] {
      OrphansShrink(s, steps[0]);
      OrphansShrinkOverRun(Next(s, steps[0]), steps[1..]);
    }
  }

  /** The effect of the task is committed or the task is in the DLQ. */
  ghost predicate IsSettled(s: State, task: TaskId) {
    task in s.published && (EffectKey(s.published[task]) in s.tables.effects || Parked(s.dlq, task))
  }

  lemma NobodyWorksAtRest(s: State)
    requires EnvelopeInv(s) && Quiescent(s)
    ensures forall i :: 0 <= i < |s.stream| ==> s.stream[i].status.Acked? || i in Orphans(s)
  {
    QuiescentMeansIdle(s);
  }

  /** Where nothing is left to do and no entry is left in flight, every task is settled. */
  lemma RestMeansSettled(s: State, task: TaskId)
    requires EnvelopeInv(s) && CoverInv(s) && Quiescent(s) && Orphans(s) == {} && task in s.published
    ensures IsSettled(s, task)
  {
    QuiescentMeansIdle(s);
    NobodyWorksAtRest(s);
    assert SafeFrom(s, task, 0);
  }

  /** A crash-free run that has come to rest has settled every task it ever took in: the effect is
      committed or the task is in the DLQ. */
  lemma AtRestAllSettled(steps: seq<Step>, task: TaskId)
    requires ValidRun(INIT, steps) && NoCrash(steps) && Quiescent(Run(INIT, steps))
    requires task in Run(INIT, steps).published
    ensures var s := Run(INIT, steps);
      EffectKey(s.published[task]) in s.tables.effects || Parked(s.dlq, task)
  {
    DeliveryRun(INIT, steps);
    OrphansShrinkOverRun(INIT, steps);
    RestMeansSettled(Run(INIT, steps), task);
  }

  /** And rest is always within reach: some continuation by work alone gets there. */
  lemma {:induction false} RestIsReachable(s: State) returns (steps: seq<Step>)
    requires EnvelopeInv(s)
    ensures ValidRun(s, steps) && forall i :: 0 <= i < |steps| ==> Work(steps[i])
    ensures Quiescent(Run(s, steps))
    decreases Rank(s)
  {
    if Quiescent(s) {
      steps := [];
    } else {
      var step :| Work(step) && Enabled(s, step);
      RankStep(s, step);
      EnvelopeStep(s, step);
      var rest := RestIsReachable(Next(s, step));
      steps := [step] + rest;
      assert steps[1..] == rest;
    }
  }

  predicate WorkOrReclaim(step: Step) {
    Work(step) || step.Reclaim?
  }

  lemma Smaller(x: set<nat>, y: set<nat>, m: nat)
    requires x <= y && m in y && m !in x
    ensures |x| < |y|
  {
    SubsetSize(x, y - {m});
  }

  lemma ReclaimOrphan(s: State, m: nat)
    requires EnvelopeInv(s) && m in Orphans(s)
    ensures Enabled(s, Reclaim("", m)) && EnvelopeInv(Next(s, Reclaim("", m)))
    ensures |Orphans(Next(s, Reclaim("", m)))| < |Orphans(s)|
  {
    EnvelopeStep(s, Reclaim("", m));
    OrphansShrink(s, Reclaim("", m));
    Smaller(Orphans(Next(s, Reclaim("", m))), Orphans(s), m);
  }

  /** Reclaiming one orphan after the other and letting the work run brings the system to rest with none
      left. */
  lemma {:induction false} RecoversByReclaiming(s: State) returns (steps: seq<Step>)
    requires EnvelopeInv(s)
    ensures ValidRun(s, steps) && forall i :: 0 <= i < |steps| ==> WorkOrReclaim(steps[i])
    ensures Quiescent(Run(s, steps)) && Orphans(Run(s, steps)) == {}
    decreases |Orphans(s)|
  {
    if m :| m in Orphans(s) {
      ReclaimOrphan(s, m);
      var rest := RecoversByReclaiming(Next(s, Reclaim("", m)));
      steps := [Reclaim("", m)] + rest;
      assert steps[1..] == rest;
    } else {
      steps := RestIsReachable(s);
      OrphansShrinkOverRun(s, steps);
    }
  }

  /** Crash recovery: whatever has happened, crashes and lost leases included, there is a continuation by
      reclaims and work alone after which every task ever published has its effect committed or is in
      the DLQ. */
  lemma CrashesAreRecovered(s: State) returns (steps: seq<Step>)
    requires Reachable(s)
    ensures ValidRun(s, steps) && forall i :: 0 <= i < |steps| ==> WorkOrReclaim(steps[i])
    ensures forall task :: task in s.published ==> IsSettled(Run(s, steps), task)
  {
    InvReachable(s);
    steps := RecoversByReclaiming(s);
    InvRun(s, steps);
    forall task | task in s.published ensures IsSettled(Run(s, steps), task) {
      PublishedOverRun(s, steps, task);
      RestMeansSettled(Run(s, steps), task);
    }
  }

  predicate Delivers(s: State, step: Step, task: TaskId) {
    step.Deliver? && step.msg < |s.stream| && s.stream[step.msg].env.taskId == task
  }

  /** A retry of the task is scheduled. */
  predicate Retries(s: State, step: Step, task: TaskId) {
    step.Schedule? && step.a < |s.acts| && s.acts[step.a].env.taskId == task
  }

  predicate Reclaims(s: State, step: Step, task: TaskId) {
    step.Reclaim? && step.msg < |s.stream| && s.stream[step.msg].env.taskId == task
  }

  function DeliverCount(s: State, steps: seq<Step>, task: TaskId): nat
    requires ValidRun(s, steps)
    decreases steps
  {
    if steps == [] then 0
    else (if Delivers(s, steps[0], task) then 1 else 0) + DeliverCount(Next(s, steps[0]), steps[1..], task)
  }

  predicate NeverReclaimed(s: State, steps: seq<Step>, task: TaskId)
    requires ValidRun(s, steps)
    decreases steps
  {
    steps == [] || (!Reclaims(s, steps[0], task) && NeverReclaimed(Next(s, steps[0]), steps[1..], task))
  }

  /** One step uses up what it counts; only a reclaim of the task adds to a count. */
  lemma BudgetStep(s: State, step: Step, c: Count)
    requires EnvelopeInv(s) && Enabled(s, step) && !c.AllDeliveries? && c.task in s.published
    ensures Budget(Next(s, step), c) +
      (if (c.DeliveriesOf? && Delivers(s, step, c.task)) || (c.RetriesOf? && Retries(s, step, c.task)) then 1 else 0) <=
      Budget(s, c) + (if Reclaims(s, step, c.task) then Carried(NextAttempt(s.stream[step.msg].env), c) else 0)
  {
    match step
    case Deliver(worker, msg) => DeliverSums(s, worker, msg, c);
    case Promote(i) => PromoteSums(s, i, c);
    case Submit(env, delayed) => SubmitSums(s, env, delayed, c);
    case Reclaim(worker, msg) => ReclaimSums(s, worker, msg, c);
    case CreateRow(_, _) =>
    case Expire(_) =>
    case _ => MoveSums(s, step, c);
  }

  lemma PublishedGrows(s: State, step: Step, task: TaskId)
    requires Enabled(s, step) && task in s.published
    ensures task in Next(s, step).published
  {
    if IsMove(step) { MoveFrame(s, step); } else { OtherFrame(s, step); }
  }

  lemma {:induction false} DeliveriesWithinBudget(s: State, steps: seq<Step>, task: TaskId)
    requires EnvelopeInv(s) && ValidRun(s, steps) && task in s.published && NeverReclaimed(s, steps, task)
    ensures DeliverCount(s, steps, task) <= Budget(s, DeliveriesOf(task))
    decreases steps
  {
    if steps != [] {
      BudgetStep(s, steps[0], DeliveriesOf(task));
      EnvelopeStep(s, steps[0]);
      PublishedGrows(s, steps[0], task);
      DeliveriesWithinBudget(Next(s, steps[0]), steps[1..], task);
    }
  }

  lemma UnpublishedHasNoBudget(s: State, c: Count)
    requires EnvelopeInv(s) && !c.AllDeliveries? && c.task !in s.published
    ensures Budget(s, c) == 0
  {
    forall i | 0 <= i < |s.stream| ensures StreamWeights(s.stream, c)[i] == 0 {
      assert KnownBelow(s.published, s.stream[i].env);
    }
    forall i | 0 <= i < |s.sched| ensures SchedWeights(s.sched, c)[i] == 0 {
      assert KnownBelow(s.published, s.sched[i]);
    }
    forall i | 0 <= i < |s.acts| ensures ActWeights(s.acts, c)[i] == 0 {
      assert KnownUpTo(s.published, s.acts[i].env);
    }
    SumZero(StreamWeights(s.stream, c));
    SumZero(SchedWeights(s.sched, c));
    SumZero(ActWeights(s.acts, c));
  }

  /** What a task counts for when it has just been submitted. */
  lemma SubmittedBudget(s: State, env: Envelope, delayed: bool, c: Count)
    requires Reachable(s) && Enabled(s, Submit(env, delayed)) && !c.AllDeliveries? && c.task == env.taskId
    ensures EnvelopeInv(Next(s, Submit(env, delayed)))
    ensures Budget(Next(s, Submit(env, delayed)), c) <= Stored(env, c)
  {
    InvReachable(s);
    EnvelopeStep(s, Submit(env, delayed));
    UnpublishedHasNoBudget(s, c);
    SubmitSums(s, env, delayed, c);
  }

  /** A task that is never reclaimed is delivered at most max_attempts times (once if max_attempts is
      below 1), whatever happens to it and to everybody else. */
  lemma DeliveredAtMostMaxAttempts(s: State, env: Envelope, delayed: bool, steps: seq<Step>)
    requires Reachable(s) && Enabled(s, Submit(env, delayed))
    requires ValidRun(Next(s, Submit(env, delayed)), steps)
    requires NeverReclaimed(Next(s, Submit(env, delayed)), steps, env.taskId)
    ensures DeliverCount(Next(s, Submit(env, delayed)), steps, env.taskId) <= Limit(env.policy)
  {
    SubmittedBudget(s, env, delayed, DeliveriesOf(env.taskId));
    DeliveriesWithinBudget(Next(s, Submit(env, delayed)), steps, env.taskId);
  }
}
