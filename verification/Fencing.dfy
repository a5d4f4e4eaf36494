/** Fences and leases over whole runs. */
module Fencing {
  import opened Envelopes
  import opened OwnerStrings
  import opened Protocol
  import Leases
  import LeaseStores

  predicate HasFence(p: Phase) {
    p.Holding? || p.Executing? || p.HandlerFailed? || p.HandlerDone? || p.EffectAbsent? ||
    p.EffectInserted? || p.EffectPresent? || p.Settled?
  }

  predicate GrantedAs(grants: seq<Grant>, fence: nat, task: TaskId, worker: string) {
    1 <= fence <= |grants| && grants[fence - 1] == Grant(task, worker)
  }

  /** The lease value is the owner string of the grant with this fence. */
  predicate LeaseOf(s: State, task: TaskId, fence: nat) {
    && 1 <= fence <= |s.grants| && s.grants[fence - 1].task == task
    && task in s.leases.held
    && s.leases.held[task] == StoredOwner(s.grants[fence - 1].worker, fence)
  }

  ghost predicate FenceInv(s: State) {
    && |s.grants| == s.leases.counter
    && (forall t :: t in s.leases.held ==> exists f: nat :: LeaseOf(s, t, f))
    && (forall a :: 0 <= a < |s.acts| && HasFence(s.acts[a].phase) ==>
          GrantedAs(s.grants, s.acts[a].phase.fence, s.acts[a].env.taskId, s.acts[a].worker))
    && (forall a, b :: 0 <= a < b < |s.acts| && HasFence(s.acts[a].phase) && HasFence(s.acts[b].phase) ==>
          s.acts[a].phase.fence != s.acts[b].phase.fence)
  }

  lemma LeasesStayGranted(s: State, s': State)
    requires FenceInv(s)
    requires |s'.grants| >= |s.grants| && s'.grants[..|s.grants|] == s.grants
    requires forall t :: t in s'.leases.held ==> t in s.leases.held && s'.leases.held[t] == s.leases.held[t]
    ensures forall t :: t in s'.leases.held ==> exists f: nat :: LeaseOf(s', t, f)
  {
    forall t | t in s'.leases.held ensures exists f: nat :: LeaseOf(s', t, f) {
      var f: nat :| LeaseOf(s, t, f);
      assert s'.grants[f - 1] == s'.grants[..|s.grants|][f - 1];
      assert LeaseOf(s', t, f);
    }
  }

  /** A lease newly granted, under the next fence. */
  lemma LeaseAdded(s: State, s': State, task: TaskId, worker: string)
    requires FenceInv(s) && s'.grants == s.grants + [Grant(task, worker)]
    requires s'.leases.held == s.leases.held[task := StoredOwner(worker, |s.grants| + 1)]
    ensures forall t :: t in s'.leases.held ==> exists f: nat :: LeaseOf(s', t, f)
  {
    forall t | t in s'.leases.held ensures exists f: nat :: LeaseOf(s', t, f) {
      if t == task {
        assert LeaseOf(s', t, |s.grants| + 1);
      } else {
        var f: nat :| LeaseOf(s, t, f);
        assert LeaseOf(s', t, f);
      }
    }
  }

  lemma FenceGranted(s: State, s': State, a: nat)
    requires FenceInv(s) && a < |s.acts|
    requires var act := s.acts[a];
      && s'.grants == s.grants + [Grant(act.env.taskId, act.worker)]
      && s'.leases.counter == s.leases.counter + 1
      && s'.leases.held == s.leases.held[act.env.taskId := StoredOwner(act.worker, |s.grants| + 1)]
      && s'.acts == s.acts[a := act.(phase := Holding(|s.grants| + 1))]
    ensures FenceInv(s')
  {
    LeaseAdded(s, s', s.acts[a].env.taskId, s.acts[a].worker);
  }

  /** An activity moves on under the fence it has, or without one. */
  lemma FenceKept(s: State, s': State, a: nat, p': Phase)
    requires FenceInv(s) && a < |s.acts|
    requires s'.acts == s.acts[a := s.acts[a].(phase := p')]
    requires HasFence(p') ==> HasFence(s.acts[a].phase) && p'.fence == s.acts[a].phase.fence
    requires s'.grants == s.grants && s'.leases.counter == s.leases.counter
    requires forall t :: t in s'.leases.held ==> t in s.leases.held && s'.leases.held[t] == s.leases.held[t]
    ensures FenceInv(s')
  {
    LeasesStayGranted(s, s');
  }

  lemma FenceAcquire(s: State, a: nat)
    requires FenceInv(s) && Enabled(s, Acquire(a))
    ensures FenceInv(Next(s, Acquire(a)))
  {
    if s.acts[a].env.taskId in s.leases.held {
      FenceKept(s, Next(s, Acquire(a)), a, Returned(false, "LeaseAcquireError: already held"));
    } else {
      FenceGranted(s, Next(s, Acquire(a)), a);
    }
  }

  lemma FencesKept(s: State, step: Step)
    requires Enabled(s, step) && IsMove(step) && !step.Acquire?
    ensures step.a < |s.acts| && step.a < |Next(s, step).acts|
    ensures HasFence(Next(s, step).acts[step.a].phase) ==>
      HasFence(s.acts[step.a].phase) && Next(s, step).acts[step.a].phase.fence == s.acts[step.a].phase.fence
    ensures Next(s, step).leases.counter == s.leases.counter
  {
  }

  /** Only acquiring adds a lease or changes one. */
  lemma LeasesShrink(s: State, step: Step)
    requires Enabled(s, step) && !step.Acquire?
    ensures forall t :: t in Next(s, step).leases.held ==>
      t in s.leases.held && Next(s, step).leases.held[t] == s.leases.held[t]
  {
    if IsMove(step) { MoveFrame(s, step); } else { OtherFrame(s, step); }
  }

  lemma FenceMove(s: State, step: Step)
    requires FenceInv(s) && Enabled(s, step) && IsMove(step) && !step.Acquire?
    ensures FenceInv(Next(s, step))
  {
    MoveFrame(s, step);
    FencesKept(s, step);
    LeasesShrink(s, step);
    FenceKept(s, Next(s, step), step.a, Next(s, step).acts[step.a].phase);
  }

  lemma FenceOther(s: State, step: Step)
    requires FenceInv(s) && Enabled(s, step) && !IsMove(step)
    ensures FenceInv(Next(s, step))
  {
    var s' := Next(s, step);
    OtherFrame(s, step);
    assert forall a :: 0 <= a < |s.acts| ==> s'.acts[a] == s'.acts[..|s.acts|][a] == s.acts[a];
    LeasesStayGranted(s, s');
  }

  lemma FenceStep(s: State, step: Step)
    requires FenceInv(s) && Enabled(s, step)
    ensures FenceInv(Next(s, step))
  {
    if step.Acquire? {
      FenceAcquire(s, step.a);
    } else if IsMove(step) {
      FenceMove(s, step);
    } else {
      FenceOther(s, step);
    }
  }

  lemma {:induction false} FenceRun(s: State, steps: seq<Step>)
    requires FenceInv(s) && ValidRun(s, steps)
    ensures FenceInv(Run(s, steps))
    ensures s.grants <= Run(s, steps).grants
    decreases steps
  {
    if steps != [] {
      var s' := Next(s, steps[0]);
      FenceStep(s, steps[0]);
      FenceRun(s', steps[1..]);
      GrantsGrow(s, steps[0]);
    }
  }

  lemma GrantsGrow(s: State, step: Step)
    requires Enabled(s, step)
    ensures s.grants <= Next(s, step).grants
  {
    if IsMove(step) { MoveFrame(s, step); } else { OtherFrame(s, step); }
  }

  /** In every reachable state the counter is the number of leases ever granted, despite the DECR
      that undoes a failed acquire, and no two activities hold the same fence. */
  lemma CounterCountsGrants(steps: seq<Step>)
    requires ValidRun(INIT, steps)
    ensures var s := Run(INIT, steps);
      && s.leases.counter == |s.grants|
      && forall a, b :: 0 <= a < b < |s.acts| && HasFence(s.acts[a].phase) && HasFence(s.acts[b].phase) ==>
           s.acts[a].phase.fence != s.acts[b].phase.fence
  {
    FenceRun(INIT, steps);
  }

  /** Whoever acquires later, on whatever task, gets a strictly larger fence than anybody has. */
  lemma LaterFenceIsLarger(s: State, steps: seq<Step>, a: nat, b: nat)
    requires FenceInv(s) && ValidRun(s, steps)
    requires a < |s.acts| && HasFence(s.acts[a].phase)
    requires Enabled(Run(s, steps), Acquire(b))
    ensures var p := Next(Run(s, steps), Acquire(b)).acts[b].phase;
      p.Holding? ==> p.fence > s.acts[a].phase.fence
  {
    FenceRun(s, steps);
  }

  /** A release deletes the lease exactly when that lease is the activity's own grant and its fence
      is below 10^14; it never deletes anybody else's, whatever the fence and the worker ids. */
  lemma ReleaseOnlyOwn(s: State, a: nat)
    requires FenceInv(s) && Enabled(s, Release(a))
    ensures var task, fence := s.acts[a].env.taskId, s.acts[a].phase.fence;
      Next(s, Release(a)).leases.held ==
        if LeaseOf(s, task, fence) && fence < LUA_PLAIN_LIMIT then s.leases.held - {task} else s.leases.held
  {
    var act := s.acts[a];
    var task, fence := act.env.taskId, act.phase.fence;
    if task in s.leases.held {
      var g: nat :| LeaseOf(s, task, g);
      OwnerMatchesExactly(s.grants[g - 1].worker, g, act.worker, fence);
      OwnerMatchesExactly(act.worker, fence, act.worker, fence);
    }
  }

  lemma NotOwnedWhenShrunk(l: Leases.Leases, l': Leases.Leases, task: TaskId, worker: string, fence: nat)
    requires forall t :: t in l'.held ==> t in l.held && l'.held[t] == l.held[t]
    requires !Leases.Owns(l, task, worker, fence)
    ensures !Leases.Owns(l', task, worker, fence)
  {
  }

  lemma NotOwnedAfterSet(
    l: Leases.Leases, counter: nat, task': TaskId, owner: string, task: TaskId, worker: string, fence: nat)
    requires owner != ExpectedOwner(worker, fence) && !Leases.Owns(l, task, worker, fence)
    ensures !Leases.Owns(Leases.Leases(counter, l.held[task' := owner]), task, worker, fence)
  {
  }

  lemma FreshOwnerDiffers(worker': string, counter: nat, worker: string, fence: nat)
    requires fence <= counter
    ensures StoredOwner(worker', counter + 1) != ExpectedOwner(worker, fence)
  {
    OwnerMatchesExactly(worker', counter + 1, worker, fence);
  }

  lemma NotOwnedAfterAcquire(
    l: Leases.Leases, task': TaskId, worker': string, task: TaskId, worker: string, fence: nat)
    requires fence <= l.counter && !Leases.Owns(l, task, worker, fence)
    ensures !Leases.Owns(Leases.Acquire(l, task', worker').0, task, worker, fence)
  {
    if task' !in l.held {
      FreshOwnerDiffers(worker', l.counter, worker, fence);
      NotOwnedAfterSet(l, l.counter + 1, task', StoredOwner(worker', l.counter + 1), task, worker, fence);
    }
  }

  lemma AcquireLeases(s: State, a: nat)
    requires Enabled(s, Acquire(a))
    ensures Next(s, Acquire(a)).leases == Leases.Acquire(s.leases, s.acts[a].env.taskId, s.acts[a].worker).0
  {
  }

  lemma OwnershipNotRegained(s: State, step: Step, task: TaskId, worker: string, fence: nat)
    requires Enabled(s, step) && fence <= s.leases.counter
    requires !Leases.Owns(s.leases, task, worker, fence)
    ensures !Leases.Owns(Next(s, step).leases, task, worker, fence)
  {
    if step.Acquire? {
      AcquireLeases(s, step.a);
      NotOwnedAfterAcquire(s.leases, s.acts[step.a].env.taskId, s.acts[step.a].worker, task, worker, fence);
    } else {
      LeasesShrink(s, step);
      NotOwnedWhenShrunk(s.leases, Next(s, step).leases, task, worker, fence);
    }
  }

  /** Once the lease of a fence has been lost, by expiry or by release, the owner string never comes
      back: every later release under that fence is a no-op, and so is every later extend in any clocked
      store with these leases, for the rest of any run. */
  lemma {:induction false} LostForGood(s: State, steps: seq<Step>, task: TaskId, worker: string, fence: nat)
    requires FenceInv(s) && ValidRun(s, steps) && fence <= |s.grants|
    requires !Leases.Owns(s.leases, task, worker, fence)
    ensures !Leases.Owns(Run(s, steps).leases, task, worker, fence)
    ensures Leases.Release(Run(s, steps).leases, task, worker, fence) == Run(s, steps).leases
    ensures forall t, ttl :: LeaseStores.View(t) == Run(s, steps).leases ==>
      LeaseStores.Apply(t, LeaseStores.Extend(task, worker, fence, ttl)) == t
    decreases steps
  {
    if steps != [] {
      OwnershipNotRegained(s, steps[0], task, worker, fence);
      FenceStep(s, steps[0]);
      GrantsGrow(s, steps[0]);
      LostForGood(Next(s, steps[0]), steps[1..], task, worker, fence);
    }
  }
}
