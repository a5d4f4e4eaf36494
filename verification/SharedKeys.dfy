/** Whose effect it is.  Tasks are unique per queue and dedup key, effects per dedup key or task id
    alone.  A task that reports success has an effect row of its own if no other task shares its effect
    key; two tasks that do share it end up with one row between them. */
module SharedKeys {
  import opened Envelopes
  import opened OwnerStrings
  import opened Store
  import opened Protocol
  import opened Effects
  import opened Deliveries
  import opened Provenance
  import Leases

  ghost predicate KeyUnshared(s: State, task: TaskId)
    requires task in s.published
  {
    forall t :: t in s.published && t != task ==> EffectKey(s.published[t]) != EffectKey(s.published[task])
  }

  /** A delivery that has success in hand, or has acked because of it, belongs to a task whose own effect
      is in, as long as nobody else was published under its key. */
  lemma OwnEffectIfUnshared(s: State, a: nat)
    requires Reachable(s) && a < |s.acts| && Vouches(s.acts[a].phase)
    ensures s.acts[a].env.taskId in s.published && HasEffect(s, s.acts[a].env.taskId)
    ensures KeyUnshared(s, s.acts[a].env.taskId) ==> HasOwnEffect(s, s.acts[a].env.taskId)
  {
    InvReachable(s);
    var task := s.acts[a].env.taskId;
    assert KnownUpTo(s.published, s.acts[a].env);
    assert Key(s, a) == EffectKey(s.published[task]);
    var row := s.tables.effects[Key(s, a)];
    assert SoundEffect(s, Key(s, a), row);
  }

  /** An absent and an empty dedup key count as none. */
  predicate Keyless(e: Envelope) {
    e.dedupKey.None? || e.dedupKey.value == ""
  }

  /** A task without a dedup key, whose id nobody else uses as a dedup key: every delivery that has
      success in hand finds the task's own row, and it is under the task's id. */
  lemma KeylessOwnsItsRow(s: State, a: nat)
    requires Reachable(s) && a < |s.acts| && Vouches(s.acts[a].phase) && Keyless(s.acts[a].env)
    requires var id := s.acts[a].env.taskId;
      forall t :: t in s.published && t != id ==> s.published[t].dedupKey != Some(id)
    ensures var id := s.acts[a].env.taskId; id in s.tables.effects && s.tables.effects[id].taskId == id
  {
    InvReachable(s);
    assert KnownUpTo(s.published, s.acts[a].env);
    OwnEffectIfUnshared(s, a);
  }

  /** A task with a dedup key that is no other task's dedup key and no keyless task's id: likewise, and
      the row is under that key. */
  lemma KeyedOwnsItsRow(s: State, a: nat)
    requires Reachable(s) && a < |s.acts| && Vouches(s.acts[a].phase) && !Keyless(s.acts[a].env)
    requires var id, key := s.acts[a].env.taskId, s.acts[a].env.dedupKey.value;
      forall t :: t in s.published && t != id ==>
        s.published[t].dedupKey != Some(key) && !(Keyless(s.published[t]) && t == key)
    ensures var id, key := s.acts[a].env.taskId, s.acts[a].env.dedupKey.value;
      key in s.tables.effects && s.tables.effects[key].taskId == id
  {
    InvReachable(s);
    assert KnownUpTo(s.published, s.acts[a].env);
    OwnEffectIfUnshared(s, a);
  }

  /** Two tasks that the unique index on queue and dedup key lets in, with one effect key: of different
      queues, or of one queue when the dedup key of one is the id of the other. */
  predicate Twins(e: Envelope, f: Envelope) {
    && e.attempt == 0 && f.attempt == 0 && e.taskId != f.taskId
    && (|| (!Keyless(e) && e.dedupKey == f.dedupKey && e.queue != f.queue)
        || (!Keyless(e) && Keyless(f) && e.dedupKey.value == f.taskId)
        || (Keyless(e) && !Keyless(f) && f.dedupKey.value == e.taskId))
  }

  /** One worker works on both; each has its lease. */
  function Both(e: Envelope, f: Envelope, w: string, tables: Tables, p: Phase, q: Phase): State {
    State(Leases.Leases(2, map[e.taskId := StoredOwner(w, 1), f.taskId := StoredOwner(w, 2)]),
          [Entry(e, InFlight), Entry(f, InFlight)], [], [], tables,
          [Activity(w, 0, e, p), Activity(w, 1, f, q)],
          [Grant(e.taskId, w), Grant(f.taskId, w)], map[e.taskId := e, f.taskId := f])
  }

  function Rows(e: Envelope, f: Envelope, state: TaskState, n: nat, state': TaskState, n': nat): map<TaskId, TaskRow> {
    map[e.taskId := TaskRow(e.queue, e.dedupKey, state, n), f.taskId := TaskRow(f.queue, f.dedupKey, state', n')]
  }

  lemma BothSubmitted(e: Envelope, f: Envelope) returns (s: State)
    requires Twins(e, f)
    ensures Reachable(s)
    ensures s == State(Leases.Leases(0, map[]), [Entry(e, Waiting), Entry(f, Waiting)], [], [],
                       Tables(Rows(e, f, Pending, 0, Pending, 0), map[], map[]), [], [],
                       map[e.taskId := e, f.taskId := f])
  {
    assert ValidRun(INIT, []) && Run(INIT, []) == INIT;
    ReachableNext(INIT, CreateRow(e.taskId, TaskRow(e.queue, e.dedupKey, Pending, 0)));
    var s1 := Next(INIT, CreateRow(e.taskId, TaskRow(e.queue, e.dedupKey, Pending, 0)));
    ReachableNext(s1, CreateRow(f.taskId, TaskRow(f.queue, f.dedupKey, Pending, 0)));
    var s2 := Next(s1, CreateRow(f.taskId, TaskRow(f.queue, f.dedupKey, Pending, 0)));
    ReachableNext(s2, Submit(e, false));
    var s3 := Next(s2, Submit(e, false));
    ReachableNext(s3, Submit(f, false));
    s := Next(s3, Submit(f, false));
  }

  lemma BothDelivered(e: Envelope, f: Envelope, w: string) returns (s: State)
    requires Twins(e, f)
    ensures Reachable(s)
    ensures s == State(Leases.Leases(0, map[]), [Entry(e, InFlight), Entry(f, InFlight)], [], [],
                       Tables(Rows(e, f, Pending, 0, Pending, 0), map[], map[]),
                       [Activity(w, 0, e, Received), Activity(w, 1, f, Received)], [],
                       map[e.taskId := e, f.taskId := f])
  {
    var s0 := BothSubmitted(e, f);
    ReachableNext(s0, Deliver(w, 0));
    var s1 := Next(s0, Deliver(w, 0));
    ReachableNext(s1, Deliver(w, 1));
    s := Next(s1, Deliver(w, 1));
  }

  lemma FirstLeased(e: Envelope, f: Envelope, w: string) returns (s: State)
    requires Twins(e, f)
    ensures Reachable(s)
    ensures s == Both(e, f, w, Tables(Rows(e, f, Pending, 0, Pending, 0), map[], map[]), Holding(1), Received).(
      leases := Leases.Leases(1, map[e.taskId := StoredOwner(w, 1)]), grants := [Grant(e.taskId, w)])
  {
    var s0 := BothDelivered(e, f, w);
    ReachableNext(s0, Acquire(0));
    s := Next(s0, Acquire(0));
  }

  lemma BothLeased(e: Envelope, f: Envelope, w: string)
    requires Twins(e, f)
    ensures Reachable(Both(e, f, w, Tables(Rows(e, f, Pending, 0, Pending, 0), map[], map[]), Holding(1), Holding(2)))
  {
    var s0 := FirstLeased(e, f, w);
    ReachableNext(s0, Acquire(1));
    assert Next(s0, Acquire(1)) ==
      Both(e, f, w, Tables(Rows(e, f, Pending, 0, Pending, 0), map[], map[]), Holding(1), Holding(2));
  }

  /** Both attempts are recorded, with these outcomes and effects so far. */
  function Recorded2(e: Envelope, f: Envelope, w: string, state: TaskState, o: Outcome, o': Outcome,
                     effects: map<string, EffectRow>): Tables {
    Tables(Rows(e, f, state, 1, Leased, 1),
           map[(e.taskId, 1) := AttemptRow(w, 1, o), (f.taskId, 1) := AttemptRow(w, 2, o')], effects)
  }

  lemma RecordTables(e: Envelope, f: Envelope, w: string)
    requires Twins(e, f)
    ensures var t0 := Tables(Rows(e, f, Pending, 0, Pending, 0), map[], map[]);
      var t1 := Tables(Rows(e, f, Leased, 1, Pending, 0),
                       map[(e.taskId, 1) := AttemptRow(w, 1, Unfinished)], map[]);
      && WithLeased(WithAttempt(t0, e.taskId, 1, w, 1), e.taskId, 1) == t1
      && WithLeased(WithAttempt(t1, f.taskId, 1, w, 2), f.taskId, 1)
           == Recorded2(e, f, w, Leased, Unfinished, Unfinished, map[])
  {
  }

  lemma FirstRecorded(e: Envelope, f: Envelope, w: string) returns (s: State)
    requires Twins(e, f)
    ensures Reachable(s)
    ensures s == Both(e, f, w, Tables(Rows(e, f, Leased, 1, Pending, 0),
                                      map[(e.taskId, 1) := AttemptRow(w, 1, Unfinished)], map[]),
                      Executing(1), Holding(2))
  {
    BothLeased(e, f, w);
    var s0 := Both(e, f, w, Tables(Rows(e, f, Pending, 0, Pending, 0), map[], map[]), Holding(1), Holding(2));
    RecordTables(e, f, w);
    ReachableNext(s0, Record(0, true, true, ""));
    s := Next(s0, Record(0, true, true, ""));
  }

  lemma BothExecuting(e: Envelope, f: Envelope, w: string) returns (s: State)
    requires Twins(e, f)
    ensures Reachable(s)
    ensures s == Both(e, f, w, Recorded2(e, f, w, Leased, Unfinished, Unfinished, map[]), Executing(1), Executing(2))
  {
    var s0 := FirstRecorded(e, f, w);
    RecordTables(e, f, w);
    ReachableNext(s0, Record(1, true, true, ""));
    s := Next(s0, Record(1, true, true, ""));
  }

  lemma BothDone(e: Envelope, f: Envelope, w: string, r: string) returns (s: State)
    requires Twins(e, f)
    ensures Reachable(s)
    ensures s == Both(e, f, w, Recorded2(e, f, w, Leased, Unfinished, Unfinished, map[]),
                      HandlerDone(1, r), HandlerDone(2, r))
  {
    var s0 := BothExecuting(e, f, w);
    ReachableNext(s0, Handle(0, Success(r)));
    var s1 := Next(s0, Handle(0, Success(r)));
    ReachableNext(s1, Handle(1, Success(r)));
    s := Next(s1, Handle(1, Success(r)));
  }

  lemma FirstInserts(e: Envelope, f: Envelope, w: string, r: string) returns (s: State)
    requires Twins(e, f)
    ensures Reachable(s)
    ensures s == Both(e, f, w, Recorded2(e, f, w, Leased, Unfinished, Unfinished, map[]),
                      EffectInserted(1, r), HandlerDone(2, r))
  {
    var s0 := BothDone(e, f, w, r);
    ReachableNext(s0, Select(0, true, ""));
    var s1 := Next(s0, Select(0, true, ""));
    ReachableNext(s1, Insert(0, true, ""));
    s := Next(s1, Insert(0, true, ""));
  }

  function OneRow(e: Envelope, r: string): map<string, EffectRow> {
    map[EffectKey(e) := EffectRow(e.taskId, 1, r)]
  }

  lemma CommitTables(e: Envelope, f: Envelope, w: string, r: string)
    requires Twins(e, f)
    ensures var before := Recorded2(e, f, w, Leased, Unfinished, Unfinished, map[]);
      Committed(before, Activity(w, 0, e, EffectInserted(1, r)))
        == Recorded2(e, f, w, Succeeded, ClosedSucceeded, Unfinished, OneRow(e, r))
  {
    var before := Recorded2(e, f, w, Leased, Unfinished, Unfinished, map[]);
    var written := WithState(WithEffect(before, EffectKey(e), EffectRow(e.taskId, 1, r)), e.taskId, Succeeded);
    assert written.tasks == Rows(e, f, Succeeded, 1, Leased, 1);
    assert written.effects == OneRow(e, r);
    assert WithAttemptClosed(written, e.taskId, 1, ClosedSucceeded).attempts ==
      Recorded2(e, f, w, Succeeded, ClosedSucceeded, Unfinished, OneRow(e, r)).attempts;
  }

  lemma FirstCommits(e: Envelope, f: Envelope, w: string, r: string) returns (s: State)
    requires Twins(e, f)
    ensures Reachable(s)
    ensures s == Both(e, f, w, Recorded2(e, f, w, Succeeded, ClosedSucceeded, Unfinished, OneRow(e, r)),
                      Settled(1, true, ""), HandlerDone(2, r))
  {
    var s0 := FirstInserts(e, f, w, r);
    CommitTables(e, f, w, r);
    ReachableNext(s0, Commit(0, true, true, ""));
    s := Next(s0, Commit(0, true, true, ""));
  }

  lemma SecondSelects(e: Envelope, f: Envelope, w: string, r: string) returns (s: State)
    requires Twins(e, f)
    ensures Reachable(s)
    ensures s == Both(e, f, w, Recorded2(e, f, w, Succeeded, ClosedSucceeded, Unfinished, OneRow(e, r)),
                      Settled(1, true, ""), EffectPresent(2))
  {
    var s0 := FirstCommits(e, f, w, r);
    ReachableNext(s0, Select(1, true, ""));
    s := Next(s0, Select(1, true, ""));
  }

  lemma SecondCommits(e: Envelope, f: Envelope, w: string, r: string) returns (s: State)
    requires Twins(e, f)
    ensures Reachable(s)
    ensures s == Both(e, f, w, Recorded2(e, f, w, Succeeded, ClosedSucceeded, ClosedSucceeded, OneRow(e, r)),
                      Settled(1, true, ""), Settled(2, true, ""))
  {
    var s0 := SecondSelects(e, f, w, r);
    ReachableNext(s0, Commit(1, true, true, ""));
    s := Next(s0, Commit(1, true, true, ""));
  }

  lemma RowsAreUnique(e: Envelope, f: Envelope)
    requires Twins(e, f)
    ensures UniqueDedup(Rows(e, f, Succeeded, 1, Leased, 1))
  {
  }

  /** For any two such tasks there is a run in which both deliveries report success, the one effect row
      is the first task's, and the second never gets one of its own and is never marked succeeded. */
  lemma SharedKeyTakesEffect(e: Envelope, f: Envelope, w: string, r: string) returns (s: State)
    requires Twins(e, f)
    ensures Reachable(s) && |s.acts| == 2 && s.acts[0].env == e && s.acts[1].env == f
    ensures s.acts[0].phase == Settled(1, true, "") && s.acts[1].phase == Settled(2, true, "")
    ensures HasOwnEffect(s, e.taskId) && UniqueDedup(s.tables.tasks)
    ensures s.tables.effects ==
      map[(if Keyless(e) then e.taskId else e.dedupKey.value) := EffectRow(e.taskId, 1, r)]
    ensures forall steps :: ValidRun(s, steps) ==>
      && !HasOwnEffect(Run(s, steps), f.taskId)
      && (f.taskId in Run(s, steps).tables.tasks ==> !Run(s, steps).tables.tasks[f.taskId].state.Succeeded?)
  {
    s := SecondCommits(e, f, w, r);
    RowsAreUnique(e, f);
    InvReachable(s);
    forall steps | ValidRun(s, steps)
      ensures !HasOwnEffect(Run(s, steps), f.taskId)
      ensures f.taskId in Run(s, steps).tables.tasks ==> !Run(s, steps).tables.tasks[f.taskId].state.Succeeded?
    {
      ForeignRowStays(s, steps, f.taskId);
    }
  }

  /** A task whose key holds somebody else's row never has a row of its own. */
  lemma ForeignRowStays(s: State, steps: seq<Step>, task: TaskId)
    requires Inv(s) && ValidRun(s, steps) && HasEffect(s, task) && !HasOwnEffect(s, task)
    ensures !HasOwnEffect(Run(s, steps), task)
    ensures task in Run(s, steps).tables.tasks ==> !Run(s, steps).tables.tasks[task].state.Succeeded?
  {
    InvRun(s, steps);
    WrittenExactlyOnce(s, steps, EffectKey(s.published[task]));
    PublishedOverRun(s, steps, task);
  }
}
