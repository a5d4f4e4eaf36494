/** How often one task is retried and how long it waits, over whole runs.  Retries are read off the
    schedule steps of a run.  A reclaim puts a second copy of the task on its way, so attempt numbers
    can repeat; when that can happen, and what bounds the backoff then, is stated here exactly. */
module RetryCounts {
  import opened Envelopes
  import opened Store
  import opened Protocol
  import opened Backoff
  import opened Deliveries
  import opened Provenance
  import opened Progress
  import Leases

  /** The attempt numbers under which a run schedules retries of the task, in order. */
  function Retried(s: State, steps: seq<Step>, task: TaskId): seq<nat>
    requires ValidRun(s, steps)
    decreases steps
  {
    if steps == [] then []
    else (if Retries(s, steps[0], task) then [s.acts[steps[0].a].env.attempt + 1] else []) +
         Retried(Next(s, steps[0]), steps[1..], task)
  }

  function ReclaimCount(s: State, steps: seq<Step>, task: TaskId): nat
    requires ValidRun(s, steps)
    decreases steps
  {
    if steps == [] then 0
    else (if Reclaims(s, steps[0], task) then 1 else 0) + ReclaimCount(Next(s, steps[0]), steps[1..], task)
  }

  /** Everything that can happen after e has been submitted in a reachable state. */
  ghost predicate LifeOf(e: Envelope, s: State, delayed: bool, steps: seq<Step>) {
    Reachable(s) && Enabled(s, Submit(e, delayed)) && ValidRun(Next(s, Submit(e, delayed)), steps)
  }

  lemma LifeBegins(e: Envelope, s: State, delayed: bool, c: Count)
    requires Reachable(s) && Enabled(s, Submit(e, delayed)) && !c.AllDeliveries? && c.task == e.taskId
    ensures var s' := Next(s, Submit(e, delayed));
      Inv(s') && e.taskId in s'.published && s'.published[e.taskId] == e && Budget(s', c) <= Stored(e, c)
  {
    ReachableNext(s, Submit(e, delayed));
    InvReachable(Next(s, Submit(e, delayed)));
    SubmittedBudget(s, e, delayed, c);
  }

  lemma PublishedStays(s: State, step: Step, task: TaskId)
    requires Enabled(s, step) && task in s.published
    ensures task in Next(s, step).published && Next(s, step).published[task] == s.published[task]
  {
    PublishedKept(s, step);
  }

  lemma {:induction false} NumbersInRange(s: State, steps: seq<Step>, task: TaskId)
    requires EnvelopeInv(s) && task in s.published && ValidRun(s, steps)
    ensures forall m :: m in Retried(s, steps, task) ==> 1 <= m < s.published[task].policy.maxAttempts
    decreases steps
  {
    if steps != [] {
      EnvelopeStep(s, steps[0]);
      PublishedStays(s, steps[0], task);
      NumbersInRange(Next(s, steps[0]), steps[1..], task);
      if Retries(s, steps[0], task) { assert KnownUpTo(s.published, s.acts[steps[0].a].env); }
    }
  }

  // ---- with reclaims counted ----

  /** However often a task is reclaimed, each reclaim buys at most max_attempts - 2 further retries. */
  function PerReclaim(p: RetryPolicy): nat {
    if Limit(p) >= 2 then Limit(p) - 2 else 0
  }

  /** What the reclaims of a run add to the retries its task can still have. */
  function Gained(s: State, steps: seq<Step>, task: TaskId): nat
    requires ValidRun(s, steps)
    decreases steps
  {
    if steps == [] then 0
    else (if Reclaims(s, steps[0], task)
          then Carried(NextAttempt(s.stream[steps[0].msg].env), RetriesOf(task)) else 0) +
         Gained(Next(s, steps[0]), steps[1..], task)
  }

  lemma {:induction false} RetriesWithinBudget(s: State, steps: seq<Step>, task: TaskId)
    requires EnvelopeInv(s) && ValidRun(s, steps) && task in s.published
    ensures |Retried(s, steps, task)| <= Budget(s, RetriesOf(task)) + Gained(s, steps, task)
    decreases steps
  {
    if steps != [] {
      BudgetStep(s, steps[0], RetriesOf(task));
      EnvelopeStep(s, steps[0]);
      PublishedStays(s, steps[0], task);
      RetriesWithinBudget(Next(s, steps[0]), steps[1..], task);
    }
  }

  lemma GainedByOne(s: State, step: Step, task: TaskId)
    requires EnvelopeInv(s) && task in s.published && Reclaims(s, step, task)
    ensures Carried(NextAttempt(s.stream[step.msg].env), RetriesOf(task)) <= PerReclaim(s.published[task].policy)
  {
    assert KnownBelow(s.published, s.stream[step.msg].env);
  }

  lemma OneMore(n: nat, per: nat)
    ensures (1 + n) * per == per + n * per
  {
  }

  lemma {:induction false} GainedPerReclaim(s: State, steps: seq<Step>, task: TaskId)
    requires EnvelopeInv(s) && ValidRun(s, steps) && task in s.published
    ensures Gained(s, steps, task) <= ReclaimCount(s, steps, task) * PerReclaim(s.published[task].policy)
    decreases steps
  {
    if steps != [] {
      var s' := Next(s, steps[0]);
      EnvelopeStep(s, steps[0]);
      PublishedStays(s, steps[0], task);
      GainedPerReclaim(s', steps[1..], task);
      if Reclaims(s, steps[0], task) {
        GainedByOne(s, steps[0], task);
        OneMore(ReclaimCount(s', steps[1..], task), PerReclaim(s.published[task].policy));
      }
    }
  }

  /** In any run at all a task is retried at most max_attempts - 1 times, plus max_attempts - 2 times
      for every reclaim of it. */
  lemma RetriesPerReclaim(e: Envelope, s: State, delayed: bool, steps: seq<Step>)
    requires LifeOf(e, s, delayed, steps)
    ensures var s' := Next(s, Submit(e, delayed));
      |Retried(s', steps, e.taskId)| <= Limit(e.policy) - 1 + ReclaimCount(s', steps, e.taskId) * PerReclaim(e.policy)
  {
    LifeBegins(e, s, delayed, RetriesOf(e.taskId));
    RetriesWithinBudget(Next(s, Submit(e, delayed)), steps, e.taskId);
    GainedPerReclaim(Next(s, Submit(e, delayed)), steps, e.taskId);
  }

  // ---- without reclaims: one copy, numbers 1, 2, 3, ... ----

  /** Every copy of the task that is under way has this attempt number. */
  ghost predicate AtNumber(s: State, task: TaskId, k: nat) {
    && (forall i :: 0 <= i < |s.stream| && s.stream[i].status.Waiting? && s.stream[i].env.taskId == task ==>
          s.stream[i].env.attempt == k)
    && (forall i :: 0 <= i < |s.sched| && s.sched[i].taskId == task ==> s.sched[i].attempt == k)
    && (forall a :: 0 <= a < |s.acts| && !HandedOver(s.acts[a].phase) && s.acts[a].env.taskId == task ==>
          s.acts[a].env.attempt == k)
  }

  lemma {:induction false} SumAtLeast(xs: seq<nat>, i: nat)
    requires i < |xs|
    ensures xs[i] <= Sum(xs)
    ensures forall j :: 0 <= j < |xs| && j != i ==> xs[i] + xs[j] <= Sum(xs)
  {
    var last := |xs| - 1;
    if i < last {
      SumAtLeast(xs[..last], i);
      assert xs[..last][i] == xs[i];
      forall j | 0 <= j < last && j != i ensures xs[i] + xs[j] <= Sum(xs) { assert xs[..last][j] == xs[j]; }
    } else {
      forall j | 0 <= j < last ensures xs[i] + xs[j] <= Sum(xs) {
        SumAtLeast(xs[..last], j);
      }
    }
  }

  /** With at most one copy under way, an activity that has it is the only place it is. */
  lemma OnlyCopy(s: State, a: nat)
    requires a < |s.acts| && !HandedOver(s.acts[a].phase)
    requires Budget(s, CopiesOf(s.acts[a].env.taskId)) <= 1
    ensures var task := s.acts[a].env.taskId;
      && (forall i :: 0 <= i < |s.stream| && s.stream[i].env.taskId == task ==> !s.stream[i].status.Waiting?)
      && (forall i :: 0 <= i < |s.sched| ==> s.sched[i].taskId != task)
      && (forall b :: 0 <= b < |s.acts| && b != a && s.acts[b].env.taskId == task ==> HandedOver(s.acts[b].phase))
  {
    var task := s.acts[a].env.taskId;
    var c := CopiesOf(task);
    SumAtLeast(ActWeights(s.acts, c), a);
    forall i | 0 <= i < |s.stream| && s.stream[i].env.taskId == task ensures !s.stream[i].status.Waiting? {
      SumAtLeast(StreamWeights(s.stream, c), i);
    }
    forall i | 0 <= i < |s.sched| ensures s.sched[i].taskId != task {
      SumAtLeast(SchedWeights(s.sched, c), i);
    }
    forall b | 0 <= b < |s.acts| && b != a && s.acts[b].env.taskId == task ensures HandedOver(s.acts[b].phase) {
      assert ActWeights(s.acts, c)[b] == ActLeft(s.acts[b], c);
    }
  }

  lemma NumberAfterRetry(s: State, a: nat, task: TaskId, k: nat)
    requires Enabled(s, Schedule(a)) && s.acts[a].env.taskId == task
    requires AtNumber(s, task, k) && Budget(s, CopiesOf(task)) <= 1
    ensures AtNumber(Next(s, Schedule(a)), task, k + 1)
  {
    OnlyCopy(s, a);
  }

  lemma NumberMove(s: State, step: Step, task: TaskId, k: nat)
    requires Enabled(s, step) && IsMove(step) && !Retries(s, step, task) && AtNumber(s, task, k)
    ensures AtNumber(Next(s, step), task, k)
  {
    MoveFrame(s, step);
    PhaseProgress(s, step);
  }

  lemma NumberOther(s: State, step: Step, task: TaskId, k: nat)
    requires Enabled(s, step) && !IsMove(step) && !Reclaims(s, step, task) && AtNumber(s, task, k)
    requires task in s.published
    ensures AtNumber(Next(s, step), task, k)
  {
  }

  /** At most one copy of the published task is under way, and it has this number. */
  ghost predicate OneCopyAt(s: State, task: TaskId, k: nat) {
    EnvelopeInv(s) && task in s.published && AtNumber(s, task, k) && Budget(s, CopiesOf(task)) <= 1
  }

  lemma OneCopyStep(s: State, step: Step, task: TaskId, k: nat)
    requires OneCopyAt(s, task, k) && Enabled(s, step) && !Reclaims(s, step, task)
    ensures OneCopyAt(Next(s, step), task, if Retries(s, step, task) then k + 1 else k)
    ensures Retries(s, step, task) ==> s.acts[step.a].env.attempt == k
  {
    EnvelopeStep(s, step);
    PublishedStays(s, step, task);
    BudgetStep(s, step, CopiesOf(task));
    if Retries(s, step, task) {
      NumberAfterRetry(s, step.a, task, k);
    } else if IsMove(step) {
      NumberMove(s, step, task, k);
    } else {
      NumberOther(s, step, task, k);
    }
  }

  /** The numbers after k, in order. */
  ghost predicate CountsUp(numbers: seq<nat>, k: nat) {
    forall i :: 0 <= i < |numbers| ==> numbers[i] == k + 1 + i
  }

  lemma CountsUpFrom(rest: seq<nat>, k: nat)
    requires CountsUp(rest, k + 1)
    ensures CountsUp([k + 1] + rest, k)
  {
  }

  lemma RetriedFirst(s: State, steps: seq<Step>, task: TaskId)
    requires steps != [] && ValidRun(s, steps)
    ensures var rest := Retried(Next(s, steps[0]), steps[1..], task);
      Retried(s, steps, task) ==
        if Retries(s, steps[0], task) then [s.acts[steps[0].a].env.attempt + 1] + rest else rest
  {
  }

  lemma {:induction false} InOrder(s: State, steps: seq<Step>, task: TaskId, k: nat)
    requires OneCopyAt(s, task, k) && ValidRun(s, steps) && NeverReclaimed(s, steps, task)
    ensures CountsUp(Retried(s, steps, task), k)
    decreases steps
  {
    if steps != [] {
      OneCopyStep(s, steps[0], task, k);
      RetriedFirst(s, steps, task);
      if Retries(s, steps[0], task) {
        InOrder(Next(s, steps[0]), steps[1..], task, k + 1);
        CountsUpFrom(Retried(Next(s, steps[0]), steps[1..], task), k);
      } else {
        InOrder(Next(s, steps[0]), steps[1..], task, k);
      }
    }
  }

  lemma NumberAtBirth(e: Envelope, s: State, delayed: bool)
    requires EnvelopeInv(s) && Enabled(s, Submit(e, delayed))
    ensures AtNumber(Next(s, Submit(e, delayed)), e.taskId, 0)
  {
    forall i | 0 <= i < |s.stream| ensures s.stream[i].env.taskId != e.taskId {
      assert KnownBelow(s.published, s.stream[i].env);
    }
    forall i | 0 <= i < |s.sched| ensures s.sched[i].taskId != e.taskId {
      assert KnownBelow(s.published, s.sched[i]);
    }
    forall a | 0 <= a < |s.acts| ensures s.acts[a].env.taskId != e.taskId {
      assert KnownUpTo(s.published, s.acts[a].env);
    }
  }

  /** A task that is never reclaimed is retried under the numbers 1, 2, 3, ... in this order. */
  lemma UnreclaimedInOrder(e: Envelope, s: State, delayed: bool, steps: seq<Step>)
    requires LifeOf(e, s, delayed, steps)
    requires NeverReclaimed(Next(s, Submit(e, delayed)), steps, e.taskId)
    ensures var numbers := Retried(Next(s, Submit(e, delayed)), steps, e.taskId);
      forall i :: 0 <= i < |numbers| ==> numbers[i] == i + 1
  {
    InvReachable(s);
    LifeBegins(e, s, delayed, CopiesOf(e.taskId));
    NumberAtBirth(e, s, delayed);
    InOrder(Next(s, Submit(e, delayed)), steps, e.taskId, 0);
  }

  // ---- with reclaims, but without retries of failures outside the handler ----

  const BUSY := "LeaseAcquireError"
  const BROKEN := "StoreError"

  lemma {:induction false} ErrorTypeOf(kind: string, rest: string)
    requires ':' !in kind
    ensures ErrorType(kind + ":" + rest) == kind
  {
    var error := kind + ":" + rest;
    if kind != "" {
      assert error[0] == kind[0] && error[1..] == kind[1..] + ":" + rest;
      ErrorTypeOf(kind[1..], rest);
    }
  }

  lemma BusyType()
    ensures ErrorType("LeaseAcquireError: already held") == BUSY
  {
    ErrorTypeOf(BUSY, " already held");
    assert BUSY + ":" + " already held" == "LeaseAcquireError: already held";
  }

  lemma BrokenType(error: string)
    ensures ErrorType("StoreError: " + error) == BROKEN
  {
    ErrorTypeOf(BROKEN, " " + error);
    assert BROKEN + ":" + (" " + error) == "StoreError: " + error;
  }

  /** Some failure to lease or to record an attempt would be retried as attempt 2. */
  predicate RetriesUnstarted(p: RetryPolicy) {
    IsRetryable(p, BUSY, 2) || IsRetryable(p, BROKEN, 2)
  }

  /** The phases of an activity that has its own attempt row and may still ask for a retry. */
  predicate Claims(p: Phase) {
    || Recorded(p)
    || ((p.Settled? || p.Returned?) && !p.success && ErrorType(p.error) != BUSY && ErrorType(p.error) != BROKEN)
  }

  predicate ClaimsFor(act: Activity, task: TaskId) {
    act.env.taskId == task && Claims(act.phase)
  }

  /** A claim has its row, under a number that was not scheduled before. */
  predicate SoundClaim(s: State, act: Activity, used: set<nat>) {
    (act.env.taskId, act.env.attempt + 1) in s.tables.attempts && act.env.attempt + 1 !in used
  }

  /** All claims of the task are sound, no two share a number, and every number scheduled has its row. */
  ghost predicate ClaimsInv(s: State, task: TaskId, used: set<nat>) {
    && (forall a :: 0 <= a < |s.acts| && ClaimsFor(s.acts[a], task) ==> SoundClaim(s, s.acts[a], used))
    && (forall a, b :: 0 <= a < b < |s.acts| && ClaimsFor(s.acts[a], task) && ClaimsFor(s.acts[b], task) ==>
          s.acts[a].env.attempt != s.acts[b].env.attempt)
    && (forall m :: m in used ==> (task, m) in s.tables.attempts)
  }

  /** Where the error text of an unsuccessful call comes from. */
  lemma FailureTexts(s: State, step: Step)
    requires Enabled(s, step) && IsMove(step)
    ensures step.a < |s.acts| && step.a < |Next(s, step).acts|
    ensures var p, p' := s.acts[step.a].phase, Next(s, step).acts[step.a].phase;
      && (p'.Settled? ==> Recorded(p) || (step.Record? && p'.error == "StoreError: " + step.error))
      && (p'.Returned? ==>
            || p'.error == "LeaseAcquireError: already held"
            || (p.Settled? && p'.success == p.success && p'.error == p.error))
  {
  }

  lemma ClaimPhases(s: State, step: Step)
    requires Enabled(s, step) && IsMove(step)
    ensures step.a < |s.acts| && step.a < |Next(s, step).acts|
    ensures Claims(Next(s, step).acts[step.a].phase) ==>
      Claims(s.acts[step.a].phase) || (step.Record? && step.applied)
  {
    BusyType();
    BrokenType(if step.Record? then step.error else "");
    FailureTexts(s, step);
    RecordedPhases(s, step);
    if step.Record? && !step.applied { AttemptNotRecorded(s, step); }
  }

  lemma RowsAfter(s: State, step: Step)
    requires Enabled(s, step)
    ensures s.tables.attempts.Keys <= Next(s, step).tables.attempts.Keys
    ensures step.Record? && step.applied ==>
      var k := (s.acts[step.a].env.taskId, s.acts[step.a].env.attempt + 1);
      k !in s.tables.attempts && k in Next(s, step).tables.attempts
  {
    NextTables(s, step);
    if !(step.Record? && step.applied) { AttemptsAfter(s, step); }
  }

  /** One activity moves on; a claim it did not have before comes with a new row. */
  lemma ClaimMoved(s: State, s': State, a: nat, p': Phase, task: TaskId, used: set<nat>)
    requires ClaimsInv(s, task, used) && a < |s.acts|
    requires s'.acts == s.acts[a := s.acts[a].(phase := p')]
    requires s.tables.attempts.Keys <= s'.tables.attempts.Keys
    requires Claims(p') && !Claims(s.acts[a].phase) ==>
      var k := (s.acts[a].env.taskId, s.acts[a].env.attempt + 1);
      k !in s.tables.attempts && k in s'.tables.attempts
    ensures ClaimsInv(s', task, used)
  {
    forall b | 0 <= b < |s'.acts| && ClaimsFor(s'.acts[b], task) ensures SoundClaim(s', s'.acts[b], used) {
      if b != a { assert SoundClaim(s, s.acts[b], used); }
    }
    forall b, c | 0 <= b < c < |s'.acts| && ClaimsFor(s'.acts[b], task) && ClaimsFor(s'.acts[c], task)
      ensures s'.acts[b].env.attempt != s'.acts[c].env.attempt
    {
      if b != a { assert SoundClaim(s, s.acts[b], used); }
      if c != a { assert SoundClaim(s, s.acts[c], used); }
    }
  }

  lemma ClaimMove(s: State, step: Step, task: TaskId, used: set<nat>)
    requires ClaimsInv(s, task, used) && Enabled(s, step) && IsMove(step)
    ensures ClaimsInv(Next(s, step), task, used)
  {
    MoveFrame(s, step);
    ClaimPhases(s, step);
    RowsAfter(s, step);
    ClaimMoved(s, Next(s, step), step.a, Next(s, step).acts[step.a].phase, task, used);
  }

  lemma ClaimJoined(s: State, s': State, task: TaskId, used: set<nat>)
    requires ClaimsInv(s, task, used) && s.tables.attempts.Keys <= s'.tables.attempts.Keys
    requires |s.acts| <= |s'.acts| && s'.acts[..|s.acts|] == s.acts
    requires forall b :: |s.acts| <= b < |s'.acts| ==> s'.acts[b].phase.Received? || s'.acts[b].phase.Adopted?
    ensures ClaimsInv(s', task, used)
  {
    assert forall a :: 0 <= a < |s.acts| ==> s'.acts[a] == s'.acts[..|s.acts|][a] == s.acts[a];
  }

  lemma ClaimOther(s: State, step: Step, task: TaskId, used: set<nat>)
    requires ClaimsInv(s, task, used) && Enabled(s, step) && !IsMove(step)
    ensures ClaimsInv(Next(s, step), task, used)
  {
    OtherFrame(s, step);
    RowsAfter(s, step);
    ClaimJoined(s, Next(s, step), task, used);
  }

  lemma UseNumber(s: State, task: TaskId, used: set<nat>, m: nat)
    requires ClaimsInv(s, task, used) && (task, m) in s.tables.attempts
    requires forall a :: 0 <= a < |s.acts| && ClaimsFor(s.acts[a], task) ==> s.acts[a].env.attempt + 1 != m
    ensures ClaimsInv(s, task, used + {m})
  {
    forall a | 0 <= a < |s.acts| && ClaimsFor(s.acts[a], task) ensures SoundClaim(s, s.acts[a], used + {m}) {
      assert SoundClaim(s, s.acts[a], used);
    }
  }

  lemma RetryHasClaim(s: State, a: nat, task: TaskId)
    requires EnvelopeInv(s) && Enabled(s, Schedule(a)) && s.acts[a].env.taskId == task && Careful(s, task)
    ensures ClaimsFor(s.acts[a], task)
  {
    assert KnownUpTo(s.published, s.acts[a].env);
  }

  /** The retrying activity had a claim, and gives it up. */
  lemma ClaimRetried(s: State, a: nat, task: TaskId, used: set<nat>)
    requires ClaimsInv(s, task, used) && EnvelopeInv(s) && Enabled(s, Schedule(a)) && s.acts[a].env.taskId == task
    requires Careful(s, task)
    ensures s.acts[a].env.attempt + 1 !in used
    ensures ClaimsInv(Next(s, Schedule(a)), task, used + {s.acts[a].env.attempt + 1})
  {
    var s' := Next(s, Schedule(a));
    RetryHasClaim(s, a, task);
    assert SoundClaim(s, s.acts[a], used);
    ClaimMove(s, Schedule(a), task, used);
    MoveFrame(s, Schedule(a));
    forall b | 0 <= b < |s'.acts| && ClaimsFor(s'.acts[b], task)
      ensures s'.acts[b].env.attempt != s.acts[a].env.attempt
    {
      assert b != a && s'.acts[b] == s.acts[b];
    }
    UseNumber(s', task, used, s.acts[a].env.attempt + 1);
  }

  ghost predicate NoRepeats(xs: seq<nat>) {
    forall i, j :: 0 <= i < j < |xs| ==> xs[i] != xs[j]
  }

  lemma ConsNoRepeats(m: nat, xs: seq<nat>)
    requires NoRepeats(xs) && m !in xs
    ensures NoRepeats([m] + xs)
  {
  }

  /** The task was published with a policy that does not retry what fails before the handler starts. */
  ghost predicate Careful(s: State, task: TaskId) {
    && task in s.published && s.published[task].policy.maxAttempts >= 3
    && !RetriesUnstarted(s.published[task].policy)
  }

  function Use(s: State, step: Step, task: TaskId, used: set<nat>): set<nat> {
    if Retries(s, step, task) then used + {s.acts[step.a].env.attempt + 1} else used
  }

  lemma ClaimStep(s: State, step: Step, task: TaskId, used: set<nat>)
    requires ClaimsInv(s, task, used) && EnvelopeInv(s) && Enabled(s, step) && Careful(s, task)
    ensures ClaimsInv(Next(s, step), task, Use(s, step, task, used)) && EnvelopeInv(Next(s, step))
    ensures Careful(Next(s, step), task)
    ensures Retries(s, step, task) ==> s.acts[step.a].env.attempt + 1 !in used
  {
    EnvelopeStep(s, step);
    PublishedStays(s, step, task);
    if Retries(s, step, task) {
      ClaimRetried(s, step.a, task, used);
    } else if IsMove(step) {
      ClaimMove(s, step, task, used);
    } else {
      ClaimOther(s, step, task, used);
    }
  }

  lemma {:induction false} ClaimsOnce(s: State, steps: seq<Step>, task: TaskId, used: set<nat>)
    requires ClaimsInv(s, task, used) && EnvelopeInv(s) && ValidRun(s, steps) && Careful(s, task)
    ensures NoRepeats(Retried(s, steps, task))
    ensures forall m :: m in Retried(s, steps, task) ==> m !in used
    decreases steps
  {
    if steps != [] {
      var step, used' := steps[0], Use(s, steps[0], task, used);
      ClaimStep(s, step, task, used);
      ClaimsOnce(Next(s, step), steps[1..], task, used');
      var rest := Retried(Next(s, step), steps[1..], task);
      if Retries(s, step, task) {
        var m := s.acts[step.a].env.attempt + 1;
        assert m in used';
        ConsNoRepeats(m, rest);
        assert Retried(s, steps, task) == [m] + rest;
      } else {
        assert Retried(s, steps, task) == rest;
      }
    }
  }

  lemma ClaimsAtBirth(e: Envelope, s: State, delayed: bool)
    requires EnvelopeInv(s) && Enabled(s, Submit(e, delayed))
    ensures ClaimsInv(Next(s, Submit(e, delayed)), e.taskId, {})
  {
    forall a | 0 <= a < |s.acts| ensures s.acts[a].env.taskId != e.taskId {
      assert KnownUpTo(s.published, s.acts[a].env);
    }
  }

  /** What keeps attempt numbers from repeating: no reclaim of the task happens, or its policy does not
      retry what fails before the handler starts. */
  ghost predicate Orderly(e: Envelope, s: State, steps: seq<Step>)
    requires ValidRun(s, steps)
  {
    NeverReclaimed(s, steps, e.taskId) || !RetriesUnstarted(e.policy)
  }

  lemma CarefulOnce(e: Envelope, s: State, delayed: bool, steps: seq<Step>)
    requires LifeOf(e, s, delayed, steps) && e.policy.maxAttempts >= 3 && !RetriesUnstarted(e.policy)
    ensures NoRepeats(Retried(Next(s, Submit(e, delayed)), steps, e.taskId))
  {
    InvReachable(s);
    LifeBegins(e, s, delayed, CopiesOf(e.taskId));
    ClaimsAtBirth(e, s, delayed);
    ClaimsOnce(Next(s, Submit(e, delayed)), steps, e.taskId, {});
  }

  lemma FewAttemptsOnce(e: Envelope, s: State, delayed: bool, steps: seq<Step>)
    requires LifeOf(e, s, delayed, steps) && e.policy.maxAttempts <= 2
    ensures NoRepeats(Retried(Next(s, Submit(e, delayed)), steps, e.taskId))
  {
    RetriesPerReclaim(e, s, delayed, steps);
    NothingPerReclaim(ReclaimCount(Next(s, Submit(e, delayed)), steps, e.taskId), e.policy);
  }

  lemma NothingPerReclaim(n: nat, p: RetryPolicy)
    requires p.maxAttempts <= 2
    ensures n * PerReclaim(p) == 0 && Limit(p) - 1 <= 1
  {
  }

  lemma EachNumberOnce(e: Envelope, s: State, delayed: bool, steps: seq<Step>)
    requires LifeOf(e, s, delayed, steps) && Orderly(e, Next(s, Submit(e, delayed)), steps)
    ensures NoRepeats(Retried(Next(s, Submit(e, delayed)), steps, e.taskId))
  {
    if NeverReclaimed(Next(s, Submit(e, delayed)), steps, e.taskId) {
      UnreclaimedInOrder(e, s, delayed, steps);
    } else if e.policy.maxAttempts >= 3 {
      CarefulOnce(e, s, delayed, steps);
    } else {
      FewAttemptsOnce(e, s, delayed, steps);
    }
  }

  function Numbers(rs: seq<Retry>): seq<nat> {
    seq(|rs|, i requires 0 <= i < |rs| => rs[i].attempt)
  }

  lemma DrawnInRange(p: RetryPolicy, rs: seq<Retry>)
    requires NoRepeats(Numbers(rs))
    requires forall m :: m in Numbers(rs) ==> 1 <= m < p.maxAttempts
    requires forall i :: 0 <= i < |rs| && rs[i].attempt >= 1 ==> IsDelay(p, rs[i].attempt, rs[i].delay)
    ensures Drawn(p, rs) && EachOnce(rs)
  {
    forall i | 0 <= i < |rs| ensures 1 <= rs[i].attempt < p.maxAttempts {
      assert Numbers(rs)[i] in Numbers(rs);
    }
    forall i, j | 0 <= i < j < |rs| ensures rs[i].attempt != rs[j].attempt {
      assert Numbers(rs)[i] != Numbers(rs)[j];
    }
  }

  /** All the backoff of one task in a whole run, for every jitter choice: never reclaimed, or under
      such a policy, it is retried at most max_attempts - 1 times and waits at most
      min(base (2^(N-1) - 1), (N-1) cap) in all. */
  lemma TotalBackoffBound(e: Envelope, s: State, delayed: bool, steps: seq<Step>, rs: seq<Retry>)
    requires LifeOf(e, s, delayed, steps) && Orderly(e, Next(s, Submit(e, delayed)), steps)
    requires Numbers(rs) == Retried(Next(s, Submit(e, delayed)), steps, e.taskId)
    requires forall i :: 0 <= i < |rs| && rs[i].attempt >= 1 ==> IsDelay(e.policy, rs[i].attempt, rs[i].delay)
    ensures |rs| <= Limit(e.policy) - 1
    ensures AtMost(TotalDelay(rs), Positive(e.policy.baseDelay), Positive(e.policy.cap), Limit(e.policy) - 1)
  {
    LifeBegins(e, s, delayed, CopiesOf(e.taskId));
    EachNumberOnce(e, s, delayed, steps);
    NumbersInRange(Next(s, Submit(e, delayed)), steps, e.taskId);
    DrawnInRange(e.policy, rs);
    DistinctRetriesBound(e.policy, rs, Limit(e.policy) - 1);
  }

  // ---- and otherwise the number of retries has no bound ----

  /** A retry scheduled while none of the task is waiting.  It adds a member to the sorted set, and the
      waiting times of such retries follow one another. */
  predicate NewRetry(s: State, step: Step, task: TaskId) {
    Retries(s, step, task) && forall x :: x in s.sched ==> x.taskId != task
  }

  /** The attempt numbers of those retries, in order. */
  function NewRetries(s: State, steps: seq<Step>, task: TaskId): seq<nat>
    requires ValidRun(s, steps)
    decreases steps
  {
    if steps == [] then []
    else (if NewRetry(s, steps[0], task) then [s.acts[steps[0].a].env.attempt + 1] else []) +
         NewRetries(Next(s, steps[0]), steps[1..], task)
  }

  /** These steps lead from one state to another and schedule these new retries. */
  ghost predicate Does(s: State, steps: seq<Step>, s': State, task: TaskId, numbers: seq<nat>) {
    ValidRun(s, steps) && Run(s, steps) == s' && NewRetries(s, steps, task) == numbers
  }

  lemma DoesOne(s: State, step: Step, task: TaskId)
    requires Enabled(s, step)
    ensures Does(s, [step], Next(s, step), task,
                 if NewRetry(s, step, task) then [s.acts[step.a].env.attempt + 1] else [])
  {
    assert [step][1..] == [];
  }

  lemma {:induction false} DoesThen(
    s: State, xs: seq<Step>, s1: State, ys: seq<Step>, s2: State, task: TaskId, ms: seq<nat>, ns: seq<nat>)
    requires Does(s, xs, s1, task, ms) && Does(s1, ys, s2, task, ns)
    ensures Does(s, xs + ys, s2, task, ms + ns)
    decreases xs
  {
    if xs == [] {
      assert xs + ys == ys && ms + ns == ns;
    } else {
      assert (xs + ys)[1..] == xs[1..] + ys;
      var rest := NewRetries(Next(s, xs[0]), xs[1..], task);
      DoesThen(Next(s, xs[0]), xs[1..], s1, ys, s2, task, rest, ns);
      if NewRetry(s, xs[0], task) {
        var m := s.acts[xs[0].a].env.attempt + 1;
        assert [m] + rest + ns == [m] + (rest + ns);
      }
    }
  }

  /** Steps that schedule nothing, and then the rest. */
  lemma QuietlyThen(
    s: State, xs: seq<Step>, s1: State, ys: seq<Step>, s2: State, task: TaskId, numbers: seq<nat>)
    requires Does(s, xs, s1, task, []) && Does(s1, ys, s2, task, numbers)
    ensures Does(s, xs + ys, s2, task, numbers)
  {
    DoesThen(s, xs, s1, ys, s2, task, [], numbers);
    assert [] + numbers == numbers;
  }

  lemma QuietThen(s: State, step: Step, steps: seq<Step>, s': State, task: TaskId, numbers: seq<nat>)
    requires Enabled(s, step) && !step.Schedule? && Does(Next(s, step), steps, s', task, numbers)
    ensures Does(s, [step] + steps, s', task, numbers)
  {
    DoesOne(s, step, task);
    QuietlyThen(s, [step], Next(s, step), steps, s', task, numbers);
  }

  /** The first message is in the hands of somebody, and nothing is scheduled. */
  ghost predicate FirstInFlight(s: State, e: Envelope) {
    |s.stream| > 0 && s.stream[0] == Entry(e, InFlight) && e.attempt == 0 && s.sched == []
  }

  /** A worker reclaims the first message and asks for the lease, ... */
  function AskSteps(a: nat): seq<Step> {
    [Reclaim("", 0), CloseLost(a, false), Acquire(a)]
  }

  /** ... which it finds taken or gets. */
  function Asked(s: State, e: Envelope): State {
    if e.taskId in s.leases.held
    then s.(acts := s.acts + [Activity("", 0, NextAttempt(e), Returned(false, "LeaseAcquireError: already held"))])
    else s.(
      acts := s.acts + [Activity("", 0, NextAttempt(e), Holding(s.leases.counter + 1))],
      leases := Leases.Acquire(s.leases, e.taskId, "").0,
      grants := s.grants + [Grant(e.taskId, "")])
  }

  lemma AskStates(s: State, e: Envelope) returns (s1: State, s2: State)
    requires FirstInFlight(s, e)
    ensures Enabled(s, Reclaim("", 0)) && s1 == Next(s, Reclaim("", 0))
    ensures Enabled(s1, CloseLost(|s.acts|, false)) && s2 == Next(s1, CloseLost(|s.acts|, false))
    ensures Enabled(s2, Acquire(|s.acts|)) && Next(s2, Acquire(|s.acts|)) == Asked(s, e)
  {
    s1 := Next(s, Reclaim("", 0));
    assert s1 == s.(acts := s.acts + [Activity("", 0, NextAttempt(e), Adopted)]);
    s2 := Next(s1, CloseLost(|s.acts|, false));
    assert s2 == s.(acts := s.acts + [Activity("", 0, NextAttempt(e), Received)]);
  }

  lemma AskRun(s: State, e: Envelope)
    requires FirstInFlight(s, e)
    ensures Does(s, AskSteps(|s.acts|), Asked(s, e), e.taskId, [])
    ensures FirstInFlight(Asked(s, e), e) && e.taskId in Asked(s, e).leases.held
    ensures Asked(s, e).stream == s.stream
  {
    var a := |s.acts|;
    var s1, s2 := AskStates(s, e);
    DoesOne(s2, Acquire(a), e.taskId);
    QuietThen(s1, CloseLost(a, false), [Acquire(a)], Asked(s, e), e.taskId, []);
    QuietThen(s, Reclaim("", 0), [CloseLost(a, false)] + [Acquire(a)], Asked(s, e), e.taskId, []);
    assert AskSteps(a) == [Reclaim("", 0)] + ([CloseLost(a, false)] + [Acquire(a)]);
  }

  /** A reclaimed delivery has failed with an error that is retried. */
  ghost predicate Failing(s: State, e: Envelope, a: nat) {
    && FirstInFlight(s, e) && a < |s.acts| && s.acts[a].env == NextAttempt(e)
    && s.acts[a].phase.Returned? && !s.acts[a].phase.success
    && IsRetryable(e.policy, ErrorType(s.acts[a].phase.error), 2)
  }

  /** The retry is scheduled, and promoted when its time has come. */
  function RetrySteps(a: nat): seq<Step> {
    [Schedule(a), Promote(0)]
  }

  lemma ScheduleThenPromote(s: State, e: Envelope, a: nat) returns (s1: State, s2: State)
    requires Failing(s, e, a)
    ensures Enabled(s, Schedule(a)) && s1 == Next(s, Schedule(a)) && NewRetry(s, Schedule(a), e.taskId)
    ensures Enabled(s1, Promote(0)) && s2 == Next(s1, Promote(0))
    ensures FirstInFlight(s2, e) && |s2.stream| == |s.stream| + 1
  {
    s1 := Next(s, Schedule(a));
    assert s1.sched == [NextAttempt(NextAttempt(e))];
    s2 := Next(s1, Promote(0));
  }

  lemma RetryRun(s: State, e: Envelope, a: nat) returns (s': State)
    requires Failing(s, e, a)
    ensures Does(s, RetrySteps(a), s', e.taskId, [2])
    ensures FirstInFlight(s', e) && |s'.stream| == |s.stream| + 1
  {
    var s1: State;
    s1, s' := ScheduleThenPromote(s, e, a);
    DoesOne(s, Schedule(a), e.taskId);
    DoesOne(s1, Promote(0), e.taskId);
    DoesThen(s, [Schedule(a)], s1, [Promote(0)], s', e.taskId, [2], []);
    assert RetrySteps(a) == [Schedule(a)] + [Promote(0)] && [2] + [] == [2];
  }

  /** One more retry as attempt 2. */
  ghost predicate OneMoreRetry(s: State, e: Envelope, steps: seq<Step>, s': State) {
    Does(s, steps, s', e.taskId, [2]) && FirstInFlight(s', e) && |s'.stream| == |s.stream| + 1
  }

  lemma BusyFails(s: State, e: Envelope)
    requires FirstInFlight(s, e) && IsRetryable(e.policy, BUSY, 2) && e.taskId in s.leases.held
    ensures Failing(Asked(s, e), e, |s.acts|)
  {
    BusyType();
  }

  /** The lease is taken: two workers reclaim the message, and the second finds it so. */
  lemma BusyAsks(s: State, e: Envelope) returns (asks: seq<Step>, s': State, b: nat)
    requires FirstInFlight(s, e) && IsRetryable(e.policy, BUSY, 2)
    ensures Does(s, asks, s', e.taskId, []) && Failing(s', e, b) && |s'.stream| == |s.stream|
  {
    var s1 := Asked(s, e);
    b := |s1.acts|;
    asks, s' := AskSteps(|s.acts|) + AskSteps(b), Asked(s1, e);
    AskRun(s, e);
    AskRun(s1, e);
    QuietlyThen(s, AskSteps(|s.acts|), s1, AskSteps(b), s', e.taskId, []);
    BusyFails(s1, e);
  }

  lemma BusyRound(s: State, e: Envelope) returns (steps: seq<Step>, s': State)
    requires FirstInFlight(s, e) && IsRetryable(e.policy, BUSY, 2)
    ensures OneMoreRetry(s, e, steps, s')
  {
    var asks, s1, b := BusyAsks(s, e);
    s' := RetryRun(s1, e, b);
    QuietlyThen(s, asks, s1, RetrySteps(b), s', e.taskId, [2]);
    steps := asks + RetrySteps(b);
  }

  /** A reclaimed delivery gets the lease, cannot record its attempt and gives the lease back. */
  function BrokenSteps(a: nat): seq<Step> {
    [Record(a, false, false, ""), Release(a)]
  }

  function WithActivity(s: State, e: Envelope, phase: Phase): State {
    s.(acts := s.acts + [Activity("", 0, NextAttempt(e), phase)])
  }

  function GaveBack(s: State, e: Envelope, f: nat): State {
    WithActivity(s, e, Returned(false, "StoreError: ")).(leases := Leases.Release(s.leases, e.taskId, "", f))
  }

  lemma RecordFails(s: State, e: Envelope, f: nat)
    ensures var s0 := WithActivity(s, e, Holding(f));
      && Enabled(s0, Record(|s.acts|, false, false, ""))
      && Next(s0, Record(|s.acts|, false, false, "")) == WithActivity(s, e, Settled(f, false, "StoreError: "))
  {
    var s0 := WithActivity(s, e, Holding(f));
    assert "StoreError: " + "" == "StoreError: ";
    assert Next(s0, Record(|s.acts|, false, false, "")).acts ==
      WithActivity(s, e, Settled(f, false, "StoreError: ")).acts;
  }

  lemma GivesBack(s: State, e: Envelope, f: nat)
    ensures var s1 := WithActivity(s, e, Settled(f, false, "StoreError: "));
      Enabled(s1, Release(|s.acts|)) && Next(s1, Release(|s.acts|)) == GaveBack(s, e, f)
  {
    var s1 := WithActivity(s, e, Settled(f, false, "StoreError: "));
    assert Next(s1, Release(|s.acts|)).acts == GaveBack(s, e, f).acts;
  }

  lemma BrokenRun(s: State, e: Envelope, f: nat)
    ensures Does(WithActivity(s, e, Holding(f)), BrokenSteps(|s.acts|), GaveBack(s, e, f), e.taskId, [])
  {
    var a, s1 := |s.acts|, WithActivity(s, e, Settled(f, false, "StoreError: "));
    RecordFails(s, e, f);
    GivesBack(s, e, f);
    DoesOne(s1, Release(a), e.taskId);
    var s0 := WithActivity(s, e, Holding(f));
    QuietThen(s0, Record(a, false, false, ""), [Release(a)], GaveBack(s, e, f), e.taskId, []);
    assert BrokenSteps(a) == [Record(a, false, false, "")] + [Release(a)];
  }

  lemma GaveBackFails(s: State, e: Envelope, f: nat)
    requires FirstInFlight(s, e) && IsRetryable(e.policy, BROKEN, 2)
    ensures Failing(GaveBack(s, e, f), e, |s.acts|) && GaveBack(s, e, f).stream == s.stream
  {
    BrokenType("");
    assert "StoreError: " + "" == "StoreError: ";
  }

  lemma BrokenFails(s: State, e: Envelope) returns (s': State)
    requires FirstInFlight(s, e) && IsRetryable(e.policy, BROKEN, 2) && e.taskId !in s.leases.held
    ensures Failing(s', e, |s.acts|) && s'.stream == s.stream
    ensures Does(Asked(s, e), BrokenSteps(|s.acts|), s', e.taskId, [])
  {
    var f := s.leases.counter + 1;
    var granted := s.(leases := Leases.Acquire(s.leases, e.taskId, "").0, grants := s.grants + [Grant(e.taskId, "")]);
    assert Asked(s, e) == WithActivity(granted, e, Holding(f));
    s' := GaveBack(granted, e, f);
    GaveBackFails(granted, e, f);
    BrokenRun(granted, e, f);
  }

  lemma ExpireFirst(s: State, e: Envelope)
    requires FirstInFlight(s, e)
    ensures var s' := Next(s, Expire(e.taskId));
      FirstInFlight(s', e) && e.taskId !in s'.leases.held && s'.acts == s.acts && s'.stream == s.stream
  {
  }

  /** Because the attempt cannot be recorded. */
  lemma BrokenRound(s: State, e: Envelope) returns (steps: seq<Step>, s': State)
    requires FirstInFlight(s, e) && IsRetryable(e.policy, BROKEN, 2)
    ensures OneMoreRetry(s, e, steps, s')
  {
    var s0, a := Next(s, Expire(e.taskId)), |s.acts|;
    ExpireFirst(s, e);
    AskRun(s0, e);
    var s1 := BrokenFails(s0, e);
    s' := RetryRun(s1, e, a);
    QuietlyThen(Asked(s0, e), BrokenSteps(a), s1, RetrySteps(a), s', e.taskId, [2]);
    QuietlyThen(s0, AskSteps(a), Asked(s0, e), BrokenSteps(a) + RetrySteps(a), s', e.taskId, [2]);
    QuietThen(s, Expire(e.taskId), AskSteps(a) + (BrokenSteps(a) + RetrySteps(a)), s', e.taskId, [2]);
    steps := [Expire(e.taskId)] + (AskSteps(a) + (BrokenSteps(a) + RetrySteps(a)));
  }

  function Twos(k: nat): (numbers: seq<nat>)
    ensures |numbers| == k && forall m :: m in numbers ==> m == 2
  {
    seq(k, _ => 2)
  }

  /** Reclaim after reclaim, each brings one more copy of attempt 2 into the stream. */
  lemma {:induction false} ManyRetries(s: State, e: Envelope, k: nat) returns (steps: seq<Step>, s': State)
    requires FirstInFlight(s, e) && RetriesUnstarted(e.policy)
    ensures Does(s, steps, s', e.taskId, Twos(k)) && |s'.stream| == |s.stream| + k
    decreases k
  {
    if k == 0 {
      steps, s' := [], s;
    } else {
      var first: seq<Step>, s1: State;
      if IsRetryable(e.policy, BUSY, 2) { first, s1 := BusyRound(s, e); } else { first, s1 := BrokenRound(s, e); }
      var rest: seq<Step>;
      rest, s' := ManyRetries(s1, e, k - 1);
      DoesThen(s, first, s1, rest, s', e.taskId, [2], Twos(k - 1));
      assert Twos(k) == [2] + Twos(k - 1);
      steps := first + rest;
    }
  }

  /** The control plane has created the row of the task. */
  function RowCreated(e: Envelope): State {
    INIT.(tables := EMPTY.(tasks := map[e.taskId := TaskRow(e.queue, e.dedupKey, Pending, 0)]))
  }

  /** Under any other policy there is, for every k, a run in which one task is scheduled k times as
      attempt 2, each time when none of its retries is waiting, and k copies of it reach the stream. */
  lemma RetriesWithoutBound(e: Envelope, k: nat) returns (steps: seq<Step>)
    requires e.attempt == 0 && RetriesUnstarted(e.policy)
    ensures LifeOf(e, RowCreated(e), false, steps)
    ensures var s := Next(RowCreated(e), Submit(e, false));
      NewRetries(s, steps, e.taskId) == Twos(k) && |Run(s, steps).stream| == |s.stream| + k
  {
    assert ValidRun(INIT, []) && Run(INIT, []) == INIT;
    var row := TaskRow(e.queue, e.dedupKey, Pending, 0);
    ReachableNext(INIT, CreateRow(e.taskId, row));
    assert Next(INIT, CreateRow(e.taskId, row)) == RowCreated(e);
    var s := Next(RowCreated(e), Submit(e, false));
    var s1 := Next(s, Deliver("", 0));
    assert s1.stream == [Entry(e, InFlight)];
    var rest, s2 := ManyRetries(s1, e, k);
    QuietThen(s, Deliver("", 0), rest, s2, e.taskId, Twos(k));
    steps := [Deliver("", 0)] + rest;
  }

  // ---- exactly when ----

  /** New retries are among the retries. */
  lemma {:induction false} NewAmongRetried(s: State, steps: seq<Step>, task: TaskId)
    requires ValidRun(s, steps)
    ensures forall m :: m in NewRetries(s, steps, task) ==> m in Retried(s, steps, task)
    ensures |NewRetries(s, steps, task)| <= |Retried(s, steps, task)|
    ensures NoRepeats(Retried(s, steps, task)) ==> NoRepeats(NewRetries(s, steps, task))
    decreases steps
  {
    if steps != [] {
      var s' := Next(s, steps[0]);
      var rest, newRest := Retried(s', steps[1..], task), NewRetries(s', steps[1..], task);
      NewAmongRetried(s', steps[1..], task);
      RetriedFirst(s, steps, task);
      if Retries(s, steps[0], task) && NoRepeats(Retried(s, steps, task)) {
        var m := s.acts[steps[0].a].env.attempt + 1;
        TailNoRepeats(m, rest);
        ConsNoRepeats(m, newRest);
      }
    }
  }

  lemma TailNoRepeats(m: nat, xs: seq<nat>)
    requires NoRepeats([m] + xs)
    ensures NoRepeats(xs) && m !in xs
  {
    forall i | 0 <= i < |xs| ensures xs[i] != m {
      assert ([m] + xs)[0] != ([m] + xs)[i + 1];
    }
    forall i, j | 0 <= i < j < |xs| ensures xs[i] != xs[j] {
      assert ([m] + xs)[i + 1] != ([m] + xs)[j + 1];
    }
  }

  /** Whatever happens, the task is retried at most max_attempts - 1 times, counting every call of
      schedule or only those made while none of its retries is waiting. */
  ghost predicate RetriesBounded(e: Envelope, onlyNew: bool) {
    forall s, delayed, steps :: LifeOf(e, s, delayed, steps) ==>
      var s' := Next(s, Submit(e, delayed));
      |if onlyNew then NewRetries(s', steps, e.taskId) else Retried(s', steps, e.taskId)| <= Limit(e.policy) - 1
  }

  function SetOf(xs: seq<nat>): set<nat> {
    set m | m in xs
  }

  lemma {:induction false} SetOfDistinct(xs: seq<nat>)
    requires NoRepeats(xs)
    ensures |SetOf(xs)| == |xs|
  {
    if xs != [] {
      var last := |xs| - 1;
      SetOfDistinct(xs[..last]);
      assert xs == xs[..last] + [xs[last]];
      assert SetOf(xs) == SetOf(xs[..last]) + {xs[last]};
    }
  }

  lemma ShortWithoutRepeats(xs: seq<nat>, n: nat)
    requires NoRepeats(xs) && forall m :: m in xs ==> 1 <= m <= n
    ensures |xs| <= n
  {
    SetOfDistinct(xs);
    assert SetOf(xs) <= Range(n);
    SubsetSize(SetOf(xs), Range(n));
  }

  lemma BoundedLife(e: Envelope, s: State, delayed: bool, steps: seq<Step>)
    requires LifeOf(e, s, delayed, steps) && !RetriesUnstarted(e.policy)
    ensures var s' := Next(s, Submit(e, delayed));
      && |NewRetries(s', steps, e.taskId)| <= |Retried(s', steps, e.taskId)| <= Limit(e.policy) - 1
      && NoRepeats(NewRetries(s', steps, e.taskId))
      && forall m :: m in NewRetries(s', steps, e.taskId) ==> 1 <= m < e.policy.maxAttempts
  {
    var s' := Next(s, Submit(e, delayed));
    LifeBegins(e, s, delayed, CopiesOf(e.taskId));
    EachNumberOnce(e, s, delayed, steps);
    NumbersInRange(s', steps, e.taskId);
    ShortWithoutRepeats(Retried(s', steps, e.taskId), Limit(e.policy) - 1);
    NewAmongRetried(s', steps, e.taskId);
  }

  /** Exactly when max_attempts bounds the retries of a task in every run: when its policy does not
      retry, as attempt 2, a failure to get the lease or to record the attempt. */
  lemma RetryBoundIff(e: Envelope, onlyNew: bool)
    requires e.attempt == 0
    ensures RetriesBounded(e, onlyNew) <==> !RetriesUnstarted(e.policy)
  {
    if RetriesUnstarted(e.policy) {
      var steps := RetriesWithoutBound(e, Limit(e.policy));
      NewAmongRetried(Next(RowCreated(e), Submit(e, false)), steps, e.taskId);
    } else {
      forall s, delayed, steps | LifeOf(e, s, delayed, steps)
        ensures var s' := Next(s, Submit(e, delayed));
          |if onlyNew then NewRetries(s', steps, e.taskId) else Retried(s', steps, e.taskId)| <= Limit(e.policy) - 1
      {
        BoundedLife(e, s, delayed, steps);
      }
    }
  }

  lemma Exceeds(total: real, d: real) returns (k: nat)
    requires d > 0.0
    ensures d * (k as real) > total
  {
    var q := total / d;
    k := if q < 0.0 then 1 else q.Floor + 1;
    assert k as real > q;
    assert d * (k as real) > d * q == total;
  }

  /** Enough retries as attempt 2 that all wait as long as they may. */
  lemma WaitLong(p: RetryPolicy, total: real) returns (k: nat, rs: seq<Retry>)
    requires p.baseDelay > 0.0 && p.cap > 0.0
    ensures Numbers(rs) == Twos(k) && TotalDelay(rs) > total
    ensures forall i :: 0 <= i < |rs| ==> rs[i].attempt >= 1 && IsDelay(p, rs[i].attempt, rs[i].delay)
  {
    var r := Retry(2, Ceiling(p, 2));
    assert Scaled(p.baseDelay, 0) == p.baseDelay;
    k := Exceeds(total, r.delay);
    rs := seq(k, _ => r);
    RepeatedDelay(r, k);
  }

  /** The delays drawn for the new retries of the task in a run, one waited for after the other. */
  ghost predicate BackoffOf(e: Envelope, s: State, delayed: bool, steps: seq<Step>, rs: seq<Retry>) {
    && LifeOf(e, s, delayed, steps)
    && Numbers(rs) == NewRetries(Next(s, Submit(e, delayed)), steps, e.taskId)
    && forall i :: 0 <= i < |rs| && rs[i].attempt >= 1 ==> IsDelay(e.policy, rs[i].attempt, rs[i].delay)
  }

  ghost predicate BackoffUpTo(e: Envelope, total: real) {
    forall s, delayed, steps, rs :: BackoffOf(e, s, delayed, steps, rs) ==> TotalDelay(rs) <= total
  }

  /** The policy lets the task wait at all, and wait again and again. */
  predicate WaitsOn(p: RetryPolicy) {
    RetriesUnstarted(p) && p.baseDelay > 0.0 && p.cap > 0.0
  }

  lemma BackoffWithoutBound(e: Envelope, total: real)
    requires e.attempt == 0 && WaitsOn(e.policy)
    ensures !BackoffUpTo(e, total)
  {
    var k, rs := WaitLong(e.policy, total);
    var steps := RetriesWithoutBound(e, k);
    assert BackoffOf(e, RowCreated(e), false, steps, rs);
  }

  lemma {:induction false} NoPositiveDelays(rs: seq<Retry>)
    requires forall i :: 0 <= i < |rs| ==> rs[i].delay <= 0.0
    ensures TotalDelay(rs) <= 0.0
  {
    if rs != [] { NoPositiveDelays(rs[..|rs| - 1]); }
  }

  lemma NeverWaits(p: RetryPolicy, attempt: nat, delay: real)
    requires attempt >= 1 && IsDelay(p, attempt, delay) && (p.baseDelay <= 0.0 || p.cap <= 0.0)
    ensures delay <= 0.0
  {
    if p.baseDelay <= 0.0 { ScaledNegative(p.baseDelay, attempt - 1); }
  }

  lemma NewInRange(e: Envelope, s: State, delayed: bool, steps: seq<Step>)
    requires LifeOf(e, s, delayed, steps)
    ensures forall m :: m in NewRetries(Next(s, Submit(e, delayed)), steps, e.taskId) ==> m >= 1
  {
    LifeBegins(e, s, delayed, CopiesOf(e.taskId));
    NumbersInRange(Next(s, Submit(e, delayed)), steps, e.taskId);
    NewAmongRetried(Next(s, Submit(e, delayed)), steps, e.taskId);
  }

  lemma BackoffNonPositive(e: Envelope, s: State, delayed: bool, steps: seq<Step>, rs: seq<Retry>)
    requires BackoffOf(e, s, delayed, steps, rs) && (e.policy.baseDelay <= 0.0 || e.policy.cap <= 0.0)
    ensures TotalDelay(rs) <= 0.0
  {
    NewInRange(e, s, delayed, steps);
    forall i | 0 <= i < |rs| ensures rs[i].delay <= 0.0 {
      assert Numbers(rs)[i] in Numbers(rs);
      NeverWaits(e.policy, rs[i].attempt, rs[i].delay);
    }
    NoPositiveDelays(rs);
  }

  lemma BackoffClosedBound(e: Envelope, s: State, delayed: bool, steps: seq<Step>, rs: seq<Retry>)
    requires BackoffOf(e, s, delayed, steps, rs) && !RetriesUnstarted(e.policy)
    ensures AtMost(TotalDelay(rs), Positive(e.policy.baseDelay), Positive(e.policy.cap), Limit(e.policy) - 1)
  {
    BoundedLife(e, s, delayed, steps);
    DrawnInRange(e.policy, rs);
    DistinctRetriesBound(e.policy, rs, Limit(e.policy) - 1);
  }

  /** Exactly when there is a bound on the time a task spends waiting for its retries, over all runs and
      all jitter: unless its policy retries what fails before the handler starts, with a positive base
      and a positive cap.  The cap alone bounds nothing. */
  lemma BackoffBoundIff(e: Envelope)
    requires e.attempt == 0
    ensures (exists total :: BackoffUpTo(e, total)) <==> !WaitsOn(e.policy)
  {
    if WaitsOn(e.policy) {
      forall total ensures !BackoffUpTo(e, total) { BackoffWithoutBound(e, total); }
    } else {
      var n := Limit(e.policy) - 1;
      var total := if RetriesUnstarted(e.policy) then 0.0 else Positive(e.policy.baseDelay) * (Pow2(n) - 1.0);
      forall s, delayed, steps, rs | BackoffOf(e, s, delayed, steps, rs) ensures TotalDelay(rs) <= total {
        if RetriesUnstarted(e.policy) {
          BackoffNonPositive(e, s, delayed, steps, rs);
        } else {
          BackoffClosedBound(e, s, delayed, steps, rs);
        }
      }
      assert BackoffUpTo(e, total);
    }
  }
}
