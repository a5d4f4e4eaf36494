/** The heartbeat of a running task (dtq/worker/executor.py, `_heartbeat_loop`): sleep a third of
    the lease, extend it, repeat.  Between two extends the rest of the system performs arbitrary
    lease operations and lets arbitrary time pass. */
module Heartbeats {
  import opened Envelopes
  import opened OwnerStrings
  import opened LeaseStores

  /** One holder of one lease. */
  datatype Holder = Holder(task: TaskId, worker: string, fence: nat)

  /** The lease is live and answers to this holder. */
  predicate Holds(t: Timed, h: Holder) {
    Live(t, h.task) && t.keys[h.task].owner == ExpectedOwner(h.worker, h.fence)
  }

  /** An operation by anybody else.  Fences are never reissued, so nobody else releases or extends
      under this holder's worker id and fence; acquiring is open to everyone. */
  predicate Foreign(op: Op, h: Holder) {
    && ValidOp(op)
    && (op.Release? || op.Extend? ==> op.worker != h.worker || op.fence != h.fence)
  }

  function ApplyAll(t: Timed, ops: seq<Op>): Timed
    decreases ops
  {
    if ops == [] then t else ApplyAll(Apply(t, ops[0]), ops[1..])
  }

  function Elapsed(ops: seq<Op>): real {
    if ops == [] then 0.0 else (if ops[0].Advance? then ops[0].dt else 0.0) + Elapsed(ops[1..])
  }

  /** One round of the loop: how long the previous reply took to arrive, how long the request to
      extend took to reach Redis, and what everybody did between the two Redis calls. */
  datatype Beat = Beat(reply: real, request: real, meanwhile: seq<Op>)

  predicate Timely(b: Beat, h: Holder, lease: real, delay: real, setup: real) {
    && 0.0 <= b.reply <= delay
    && 0.0 <= b.request <= delay
    && (forall i :: 0 <= i < |b.meanwhile| ==> Foreign(b.meanwhile[i], h))
    && Elapsed(b.meanwhile) <= b.reply + setup + lease / 3.0 + b.request
  }

  /** Only the first round may be delayed by the work between acquiring and the first sleep. */
  predicate TimelyRun(beats: seq<Beat>, h: Holder, lease: real, delay: real, setup: real) {
    forall i :: 0 <= i < |beats| ==>
      Timely(beats[i], h, lease, delay, if i == 0 then setup else 0.0)
  }

  /** Everything that reaches Redis during the loop, in order. */
  function Trace(beats: seq<Beat>, h: Holder, lease: real): seq<Op> {
    if beats == [] then []
    else beats[0].meanwhile + [Extend(h.task, h.worker, h.fence, lease)] + Trace(beats[1..], h, lease)
  }

  lemma {:induction false} ApplyAllConcat(t: Timed, xs: seq<Op>, ys: seq<Op>)
    ensures ApplyAll(t, xs + ys) == ApplyAll(ApplyAll(t, xs), ys)
    decreases xs
  {
    if xs == [] {
      assert xs + ys == ys;
    } else {
      assert (xs + ys)[1..] == xs[1..] + ys;
      ApplyAllConcat(Apply(t, xs[0]), xs[1..], ys);
    }
  }

  /** Nobody else can touch a lease that has time left. */
  lemma ForeignStep(t: Timed, op: Op, h: Holder)
    requires Holds(t, h) && Foreign(op, h) && h.fence < LUA_PLAIN_LIMIT
    requires op.Advance? ==> t.now + op.dt < t.keys[h.task].expires
    ensures Holds(Apply(t, op), h)
    ensures Apply(t, op).keys[h.task] == t.keys[h.task]
    ensures Apply(t, op).now == t.now + (if op.Advance? then op.dt else 0.0)
  {
    if op.Release? || op.Extend? {
      OwnerMatchesExactly(h.worker, h.fence, op.worker, op.fence);
    }
  }

  lemma {:induction false} ForeignRun(t: Timed, ops: seq<Op>, h: Holder, k: nat)
    requires Holds(t, h) && h.fence < LUA_PLAIN_LIMIT && k <= |ops|
    requires forall i :: 0 <= i < |ops| ==> Foreign(ops[i], h)
    requires t.now + Elapsed(ops) < t.keys[h.task].expires
    ensures Holds(ApplyAll(t, ops[..k]), h)
    ensures k == |ops| ==>
      && ApplyAll(t, ops[..k]).keys[h.task] == t.keys[h.task]
      && ApplyAll(t, ops[..k]).now == t.now + Elapsed(ops)
    decreases ops
  {
    if k > 0 {
      assert forall i :: 0 <= i < |ops[1..]| ==> ops[1..][i] == ops[i + 1];
      ElapsedNonNegative(ops[1..]);
      ForeignStep(t, ops[0], h);
      assert ops[..k][1..] == ops[1..][..k - 1];
      ForeignRun(Apply(t, ops[0]), ops[1..], h, k - 1);
    } else if ops != [] {
      assert ops[..k] == [];
    }
  }

  lemma {:induction false} ElapsedNonNegative(ops: seq<Op>)
    requires forall i :: 0 <= i < |ops| ==> ValidOp(ops[i])
    ensures Elapsed(ops) >= 0.0
  {
    if ops != [] { ElapsedNonNegative(ops[1..]); }
  }

  /** If the holder has a full lease ahead of it, it still holds after one round, again with a full
      lease ahead, and at every moment in between. */
  lemma BeatKeepsLease(t: Timed, b: Beat, h: Holder, lease: real, delay: real, setup: real, k: nat)
    requires h.fence < LUA_PLAIN_LIMIT && setup >= 0.0 && setup + lease / 3.0 + 2.0 * delay < lease
    requires Timely(b, h, lease, delay, setup)
    requires Holds(t, h) && t.keys[h.task].expires == t.now + lease
    requires k <= |b.meanwhile|
    ensures Holds(ApplyAll(t, b.meanwhile[..k]), h)
    ensures var t' := Apply(ApplyAll(t, b.meanwhile), Extend(h.task, h.worker, h.fence, lease));
      Holds(t', h) && t'.keys[h.task].expires == t'.now + lease
  {
    ForeignRun(t, b.meanwhile, h, k);
    ForeignRun(t, b.meanwhile, h, |b.meanwhile|);
    assert b.meanwhile[..|b.meanwhile|] == b.meanwhile;
  }

  /** Heartbeat bound: as long as the loop runs, the lease never lapses, at any point of any
      interleaving and for any number of rounds. */
  lemma {:induction false} LeaseNeverLapses(
    t: Timed, beats: seq<Beat>, h: Holder, lease: real, delay: real, setup: real, k: nat)
    requires h.fence < LUA_PLAIN_LIMIT
    requires setup >= 0.0 && setup + lease / 3.0 + 2.0 * delay < lease
    requires TimelyRun(beats, h, lease, delay, setup)
    requires Holds(t, h) && t.keys[h.task].expires == t.now + lease
    requires k <= |Trace(beats, h, lease)|
    ensures Holds(ApplyAll(t, Trace(beats, h, lease)[..k]), h)
    decreases beats
  {
    var trace := Trace(beats, h, lease);
    if k == 0 {
      assert trace[..k] == [];
    } else {
      var first := beats[0].meanwhile;
      var extend := Extend(h.task, h.worker, h.fence, lease);
      assert Timely(beats[0], h, lease, delay, setup);
      BeatKeepsLease(t, beats[0], h, lease, delay, setup, if k <= |first| then k else 0);
      if k <= |first| {
        assert trace[..k] == first[..k];
      } else {
        var rest := Trace(beats[1..], h, lease);
        var j := k - |first| - 1;
        assert trace[..k] == (first + [extend]) + rest[..j];
        ApplyAllConcat(t, first + [extend], rest[..j]);
        ApplyAllConcat(t, first, [extend]);
        assert ApplyAll(ApplyAll(t, first), [extend]) == Apply(ApplyAll(t, first), extend);
        assert forall i :: 0 <= i < |beats[1..]| ==> Timely(beats[1..][i], h, lease, delay, 0.0) by {
          forall i | 0 <= i < |beats[1..]| ensures Timely(beats[1..][i], h, lease, delay, 0.0) {
            assert beats[1..][i] == beats[i + 1];
          }
        }
        LeaseNeverLapses(Apply(ApplyAll(t, first), extend), beats[1..], h, lease, delay, 0.0, j);
      }
    }
  }

  /** From the acquire on: whoever finds the key free, acquires it for `lease` and then keeps its rounds,
      holds the lease at every point of every interleaving.  Nothing is assumed about the expiry. */
  lemma AcquiredLeaseNeverLapses(
    t: Timed, task: TaskId, worker: string, beats: seq<Beat>, lease: real, delay: real, setup: real, k: nat)
    requires !Live(t, task) && t.counter + 1 < LUA_PLAIN_LIMIT && lease > 0.0
    requires setup >= 0.0 && setup + lease / 3.0 + 2.0 * delay < lease
    requires TimelyRun(beats, Holder(task, worker, t.counter + 1), lease, delay, setup)
    requires k <= |Trace(beats, Holder(task, worker, t.counter + 1), lease)|
    ensures var h := Holder(task, worker, t.counter + 1);
      Holds(ApplyAll(Apply(t, Acquire(task, worker, lease)), Trace(beats, h, lease)[..k]), h)
  {
    var h := Holder(task, worker, t.counter + 1);
    OwnerMatchesExactly(worker, h.fence, worker, h.fence);
    LeaseNeverLapses(Apply(t, Acquire(task, worker, lease)), beats, h, lease, delay, setup, k);
  }

  /** Whatever answers to the holder is gone by this time, and nothing new ever will answer to it. */
  predicate GoneBy(t: Timed, h: Holder, end: real) {
    && h.fence <= t.counter
    && (h.task in t.keys && t.keys[h.task].owner == ExpectedOwner(h.worker, h.fence) ==> t.keys[h.task].expires <= end)
  }

  lemma ExpectedOwnersDiffer(w: string, f: nat, w': string, f': nat)
    requires ExpectedOwner(w, f) == ExpectedOwner(w', f')
    ensures w == w' && f == f'
  {
    DecimalIsDigits(f);
    DecimalIsDigits(f');
    SplitAtLastColon(w, Decimal(f), w', Decimal(f'));
    DecimalInjective(f, f');
  }

  lemma GoneByStep(t: Timed, op: Op, h: Holder, end: real)
    requires GoneBy(t, h, end) && Foreign(op, h)
    ensures GoneBy(Apply(t, op), h, end)
    ensures Apply(t, op).now == t.now + (if op.Advance? then op.dt else 0.0)
  {
    match op
    case Acquire(task, worker, ttl) => OwnerMatchesExactly(worker, t.counter + 1, h.worker, h.fence);
    case Extend(task, worker, fence, ttl) =>
      if ExpectedOwner(worker, fence) == ExpectedOwner(h.worker, h.fence) {
        ExpectedOwnersDiffer(worker, fence, h.worker, h.fence);
      }
    case _ =>
  }

  lemma {:induction false} GoneByRun(t: Timed, ops: seq<Op>, h: Holder, end: real)
    requires GoneBy(t, h, end) && forall i :: 0 <= i < |ops| ==> Foreign(ops[i], h)
    ensures GoneBy(ApplyAll(t, ops), h, end) && ApplyAll(t, ops).now == t.now + Elapsed(ops)
    decreases ops
  {
    if ops != [] {
      GoneByStep(t, ops[0], h, end);
      assert forall i :: 0 <= i < |ops[1..]| ==> ops[1..][i] == ops[i + 1];
      GoneByRun(Apply(t, ops[0]), ops[1..], h, end);
    }
  }

  /** The other side of the bound: a holder that stops extending has lost its lease once the time it
      acquired it for has passed, so a crashed worker blocks its task no longer than that. */
  lemma AbandonedLeaseLapses(t: Timed, task: TaskId, worker: string, lease: real, ops: seq<Op>)
    requires !Live(t, task) && lease > 0.0 && Elapsed(ops) >= lease
    requires forall i :: 0 <= i < |ops| ==> Foreign(ops[i], Holder(task, worker, t.counter + 1))
    ensures !Holds(ApplyAll(Apply(t, Acquire(task, worker, lease)), ops), Holder(task, worker, t.counter + 1))
  {
    GoneByRun(Apply(t, Acquire(task, worker, lease)), ops, Holder(task, worker, t.counter + 1), t.now + lease);
  }

  /** The same after the last extend. */
  lemma ExtendedLeaseLapses(t: Timed, h: Holder, lease: real, ops: seq<Op>)
    requires Holds(t, h) && h.fence <= t.counter && lease > 0.0 && Elapsed(ops) >= lease
    requires forall i :: 0 <= i < |ops| ==> Foreign(ops[i], h)
    ensures !Holds(ApplyAll(Apply(t, Extend(h.task, h.worker, h.fence, lease)), ops), h)
  {
    GoneByRun(Apply(t, Extend(h.task, h.worker, h.fence, lease)), ops, h, t.now + lease);
  }

  method Perform(store: LeaseStore, ops: seq<Op>)
    requires forall i :: 0 <= i < |ops| ==> ValidOp(ops[i])
    modifies store
    ensures store.State() == ApplyAll(old(store.State()), ops)
  {
    for i := 0 to |ops|
      invariant store.State() == ApplyAll(old(store.State()), ops[..i])
    {
      assert ops[..i + 1] == ops[..i] + [ops[i]];
      ApplyAllConcat(old(store.State()), ops[..i], [ops[i]]);
      assert ApplyAll(store.State(), [ops[i]]) == Apply(store.State(), ops[i]);
      match ops[i] {
        case Acquire(task, worker, ttl) => var _ := store.AcquireLease(task, worker, ttl);
        case Release(task, worker, fence) => var _ := store.ReleaseLease(task, worker, fence);
        case Extend(task, worker, fence, ttl) => var _ := store.ExtendLease(task, worker, fence, ttl);
        case Advance(dt) => store.Wait(dt);
      }
    }
    assert ops[..|ops|] == ops;
  }

  /** The loop itself.  It leaves early only when an extend comes back 0; under the timing
      assumption it completes every round. */
  method HeartbeatLoop(
    store: LeaseStore, h: Holder, lease: real, beats: seq<Beat>,
    ghost delay: real, ghost setup: real) returns (rounds: nat)
    requires h.fence < LUA_PLAIN_LIMIT
    requires lease > 0.0 && setup >= 0.0 && setup + lease / 3.0 + 2.0 * delay < lease
    requires TimelyRun(beats, h, lease, delay, setup)
    requires Holds(store.State(), h)
    requires store.State().keys[h.task].expires == store.State().now + lease
    modifies store
    ensures rounds == |beats|
    ensures Holds(store.State(), h)
    ensures store.State().keys[h.task].expires == store.State().now + lease
  {
    rounds := 0;
    while rounds < |beats|
      invariant 0 <= rounds <= |beats|
      invariant Holds(store.State(), h)
      invariant store.State().keys[h.task].expires == store.State().now + lease
    {
      ghost var slack := if rounds == 0 then setup else 0.0;
      assert Timely(beats[rounds], h, lease, delay, slack);
      BeatKeepsLease(store.State(), beats[rounds], h, lease, delay, slack, |beats[rounds].meanwhile|);
      assert beats[rounds].meanwhile[..|beats[rounds].meanwhile|] == beats[rounds].meanwhile;
      Perform(store, beats[rounds].meanwhile);
      var extended := store.ExtendLease(h.task, h.worker, h.fence, lease);
      if !extended {
        break;
      }
      rounds := rounds + 1;
    }
  }
}
