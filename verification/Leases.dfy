/** The three lease scripts (acquire_lease.lua, release_lease.lua, extend_lease.lua) on the values
    they work on: the fence counter and the owner strings of the leases that are live. */
module Leases {
  import opened Envelopes
  import opened OwnerStrings

  datatype Leases = Leases(counter: nat, held: map<TaskId, string>)

  /** INCR, SET NX, and DECR when the key was taken.  Fence 0 means "already held". */
  function Acquire(l: Leases, task: TaskId, worker: string): (Leases, nat) {
    if task in l.held then (l, 0)
    else (Leases(l.counter + 1, l.held[task := StoredOwner(worker, l.counter + 1)]), l.counter + 1)
  }

  /** The comparison both compare-and-act scripts make. */
  predicate Owns(l: Leases, task: TaskId, worker: string, fence: nat) {
    task in l.held && l.held[task] == ExpectedOwner(worker, fence)
  }

  function Release(l: Leases, task: TaskId, worker: string, fence: nat): Leases {
    if Owns(l, task, worker, fence) then l.(held := l.held - {task}) else l
  }

  function Expire(l: Leases, task: TaskId): Leases {
    l.(held := l.held - {task})
  }
}

/** The same scripts with the clock that Redis expires keys by, as a mutable store. */
module LeaseStores {
  import opened Envelopes
  import opened OwnerStrings
  import Leases

  datatype Lease = Lease(owner: string, expires: real)

  datatype Timed = Timed(now: real, counter: nat, keys: map<TaskId, Lease>)

  predicate Live(t: Timed, task: TaskId) {
    task in t.keys && t.now < t.keys[task].expires
  }

  /** What a client can observe: the counter and the keys that have not expired. */
  function View(t: Timed): Leases.Leases {
    Leases.Leases(t.counter, map k | k in t.keys && Live(t, k) :: t.keys[k].owner)
  }

  datatype Op =
    | Acquire(task: TaskId, worker: string, ttl: real)
    | Release(task: TaskId, worker: string, fence: nat)
    | Extend(task: TaskId, worker: string, fence: nat, ttl: real)
    | Advance(dt: real)

  /** Redis refuses a TTL that is not positive, and clocks do not run backwards. */
  predicate ValidOp(op: Op) {
    match op
    case Acquire(_, _, ttl) => ttl > 0.0
    case Extend(_, _, _, ttl) => ttl > 0.0
    case Advance(dt) => dt >= 0.0
    case Release(_, _, _) => true
  }

  /** The operations as values, for reasoning about interleavings. */
  function Apply(t: Timed, op: Op): Timed {
    match op
    case Acquire(task, worker, ttl) =>
      if Live(t, task) then t
      else t.(counter := t.counter + 1,
              keys := t.keys[task := Lease(StoredOwner(worker, t.counter + 1), t.now + ttl)])
    case Release(task, worker, fence) =>
      if Live(t, task) && t.keys[task].owner == ExpectedOwner(worker, fence)
      then t.(keys := t.keys - {task}) else t
    case Extend(task, worker, fence, ttl) =>
      if Live(t, task) && t.keys[task].owner == ExpectedOwner(worker, fence)
      then t.(keys := t.keys[task := t.keys[task].(expires := t.now + ttl)]) else t
    case Advance(dt) => t.(now := t.now + dt)
  }

  /** Every clocked operation is the clockless script on the observable leases, and the clock
      itself only ever removes leases. */
  lemma ApplyRefinesScripts(t: Timed, op: Op)
    requires ValidOp(op)
    ensures match op
      case Acquire(task, worker, _) => View(Apply(t, op)) == Leases.Acquire(View(t), task, worker).0
      case Release(task, worker, fence) => View(Apply(t, op)) == Leases.Release(View(t), task, worker, fence)
      case Extend(_, _, _, _) => View(Apply(t, op)) == View(t)
      case Advance(_) =>
        && View(Apply(t, op)).counter == View(t).counter
        && forall k :: k in View(Apply(t, op)).held ==>
             k in View(t).held && View(Apply(t, op)).held[k] == View(t).held[k]
  {
    var t' := Apply(t, op);
    match op
    case Acquire(task, worker, ttl) =>
      assert View(t').held == Leases.Acquire(View(t), task, worker).0.held;
    case Release(task, worker, fence) =>
      assert View(t').held == Leases.Release(View(t), task, worker, fence).held;
    case Extend(task, worker, fence, ttl) =>
      assert View(t').held == View(t).held;
    case Advance(dt) =>
  }

  /** The lease keys and the fence counter, updated in place as the scripts update Redis. */
  class LeaseStore {
    var now: real
    var counter: nat
    var keys: map<TaskId, Lease>

    ghost function State(): Timed
      reads this
    {
      Timed(now, counter, keys)
    }

    constructor ()
      ensures State() == Timed(0.0, 0, map[])
    {
      now, counter, keys := 0.0, 0, map[];
    }

    /** GET: an expired key reads as absent. */
    method Get(task: TaskId) returns (value: Option<string>)
      ensures value == if task in View(State()).held then Some(View(State()).held[task]) else None
    {
      if task in keys && now < keys[task].expires {
        value := Some(keys[task].owner);
      } else {
        value := None;
      }
    }

    method AcquireLease(task: TaskId, worker: string, ttl: real) returns (fence: nat)
      requires ttl > 0.0
      modifies this
      ensures State() == Apply(old(State()), Acquire(task, worker, ttl))
      ensures (View(State()), fence) == Leases.Acquire(old(View(State())), task, worker)
      ensures now == old(now)
      ensures fence == 0 <==> task in old(keys) && old(now) < old(keys)[task].expires
      ensures fence == 0 ==> keys == old(keys) && counter == old(counter)
      ensures fence != 0 ==>
        && fence == counter == old(counter) + 1
        && task in keys && now < keys[task].expires && keys[task].expires == now + ttl
        && (fence < LUA_PLAIN_LIMIT ==> keys[task].owner == worker + ":" + Decimal(fence))
        && keys.Keys == old(keys).Keys + {task}
        && forall k :: k in old(keys) && k != task ==> keys[k] == old(keys)[k]
    {
      ApplyRefinesScripts(State(), Acquire(task, worker, ttl));
      counter := counter + 1;
      var current := Get(task);
      if current.None? {
        keys := keys[task := Lease(worker + ":" + LuaToString(counter), now + ttl)];
        fence := counter;
      } else {
        counter := counter - 1;
        fence := 0;
      }
    }

    method ReleaseLease(task: TaskId, worker: string, fence: nat) returns (released: bool)
      modifies this
      ensures released == Leases.Owns(old(View(State())), task, worker, fence)
      ensures State() == Apply(old(State()), Release(task, worker, fence))
      ensures now == old(now) && counter == old(counter)
      ensures keys == if released then old(keys) - {task} else old(keys)
      ensures View(State()) == Leases.Release(old(View(State())), task, worker, fence)
    {
      ApplyRefinesScripts(State(), Release(task, worker, fence));
      var current := Get(task);
      released := current == Some(worker + ":" + Decimal(fence));
      if released {
        keys := keys - {task};
      }
    }

    method ExtendLease(task: TaskId, worker: string, fence: nat, ttl: real) returns (extended: bool)
      requires ttl > 0.0
      modifies this
      ensures extended == Leases.Owns(old(View(State())), task, worker, fence)
      ensures State() == Apply(old(State()), Extend(task, worker, fence, ttl))
      ensures now == old(now) && counter == old(counter) && keys.Keys == old(keys).Keys
      ensures !extended ==> keys == old(keys)
      ensures extended ==> task in keys && keys[task].expires == now + ttl && keys[task].owner == old(keys)[task].owner
      ensures forall k :: k in old(keys) && k != task ==> keys[k] == old(keys)[k]
      ensures View(State()) == old(View(State()))
    {
      ApplyRefinesScripts(State(), Extend(task, worker, fence, ttl));
      var current := Get(task);
      extended := current == Some(worker + ":" + Decimal(fence));
      if extended {
        keys := keys[task := Lease(keys[task].owner, now + ttl)];
      }
    }

    method Wait(dt: real)
      requires dt >= 0.0
      modifies this
      ensures State() == Apply(old(State()), Advance(dt))
      ensures now == old(now) + dt && counter == old(counter) && keys == old(keys)
    {
      now := now + dt;
    }
  }
}
