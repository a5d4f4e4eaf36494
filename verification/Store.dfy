/** The Postgres tables and the repository operations on them
    (dtq/store/tables.py, dtq/store/repository.py). */
module Store {
  import opened Envelopes

  datatype TaskState = Pending | Scheduled | Leased | Succeeded | Failed | Dead | Cancelled

  datatype TaskRow = TaskRow(queue: string, dedupKey: Option<string>, state: TaskState, attempt: nat)

  datatype Outcome = Unfinished | ClosedSucceeded | ClosedFailed | LeaseLost

  datatype AttemptRow = AttemptRow(worker: string, fence: nat, outcome: Outcome)

  datatype EffectRow = EffectRow(taskId: TaskId, fence: nat, result: string)

  /** Primary and unique keys are the map keys: task id, (task id, attempt number), effect key. */
  datatype Tables = Tables(
    tasks: map<TaskId, TaskRow>,
    attempts: map<(TaskId, nat), AttemptRow>,
    effects: map<string, EffectRow>)

  const EMPTY := Tables(map[], map[], map[])

  /** The partial unique index tasks_dedup on (queue, dedup_key). */
  ghost predicate UniqueDedup(tasks: map<TaskId, TaskRow>) {
    forall t, u :: t in tasks && u in tasks && t != u && tasks[t].dedupKey.Some? ==>
      tasks[t].queue != tasks[u].queue || tasks[t].dedupKey != tasks[u].dedupKey
  }

  predicate Clashes(tasks: map<TaskId, TaskRow>, queue: string, dedupKey: Option<string>) {
    dedupKey.Some? && exists t :: t in tasks && tasks[t].queue == queue && tasks[t].dedupKey == dedupKey
  }

  /** update_task_state: an UPDATE that matches no row changes nothing. */
  function WithState(tb: Tables, task: TaskId, state: TaskState): Tables {
    if task in tb.tasks then tb.(tasks := tb.tasks[task := tb.tasks[task].(state := state)]) else tb
  }

  function WithLeased(tb: Tables, task: TaskId, attempt: nat): Tables {
    if task in tb.tasks
    then tb.(tasks := tb.tasks[task := tb.tasks[task].(state := Leased, attempt := attempt)]) else tb
  }

  /** The foreign key to tasks and the unique constraint on (task_id, attempt_no). */
  predicate CanCreateAttempt(tb: Tables, task: TaskId, n: nat) {
    task in tb.tasks && (task, n) !in tb.attempts
  }

  function WithAttempt(tb: Tables, task: TaskId, n: nat, worker: string, fence: nat): Tables {
    tb.(attempts := tb.attempts[(task, n) := AttemptRow(worker, fence, Unfinished)])
  }

  function WithAttemptClosed(tb: Tables, task: TaskId, n: nat, outcome: Outcome): Tables {
    if (task, n) in tb.attempts
    then tb.(attempts := tb.attempts[(task, n) := tb.attempts[(task, n)].(outcome := outcome)]) else tb
  }

  /** What the SELECT at the head of commit_effect decides. */
  datatype Verdict = Absent | AlreadyCommitted | FenceRejected

  function Examine(tb: Tables, key: string, fence: nat): Verdict {
    if key !in tb.effects then Absent
    else if tb.effects[key].fence > fence then FenceRejected
    else AlreadyCommitted
  }

  function WithEffect(tb: Tables, key: string, row: EffectRow): Tables {
    tb.(effects := tb.effects[key := row])
  }

  datatype Creation = Created | Existing(id: TaskId) | IntegrityError

  /** The repository over one session; every method is one statement or one flush. */
  class TaskRepository {
    var tables: Tables

    /** A session opened on these tables. */
    constructor (tables: Tables)
      ensures this.tables == tables
    {
      this.tables := tables;
    }

    /** Idempotent enqueue: under a non-empty key that the queue already knows, nothing is inserted
        and the existing task comes back.  An empty key skips the lookup but still meets the index. */
    method CreateTask(id: TaskId, queue: string, dedupKey: Option<string>, delayed: bool) returns (r: Creation)
      requires UniqueDedup(tables.tasks)
      modifies this
      ensures UniqueDedup(tables.tasks)
      ensures r.Created? <==> id !in old(tables).tasks && !Clashes(old(tables).tasks, queue, dedupKey)
      ensures r.Existing? <==> Clashes(old(tables).tasks, queue, dedupKey) && dedupKey.value != ""
      ensures r.Existing? ==> r.id in tables.tasks && tables.tasks[r.id].queue == queue
      ensures r.Existing? ==> tables.tasks[r.id].dedupKey == dedupKey
      ensures tables == if r.Created?
        then old(tables).(tasks := old(tables).tasks[id :=
               TaskRow(queue, dedupKey, if delayed then Scheduled else Pending, 0)])
        else old(tables)
    {
      if dedupKey.Some? && dedupKey.value != "" {
        if Clashes(tables.tasks, queue, dedupKey) {
          var row :| row in tables.tasks && tables.tasks[row].queue == queue && tables.tasks[row].dedupKey == dedupKey;
          return Existing(row);
        }
      }
      if id in tables.tasks || Clashes(tables.tasks, queue, dedupKey) {
        return IntegrityError;
      }
      tables := tables.(tasks := tables.tasks[id :=
        TaskRow(queue, dedupKey, if delayed then Scheduled else Pending, 0)]);
      r := Created;
    }

    method CreateAttempt(task: TaskId, n: nat, worker: string, fence: nat) returns (ok: bool)
      modifies this
      ensures ok == CanCreateAttempt(old(tables), task, n)
      ensures tables == if ok then WithAttempt(old(tables), task, n, worker, fence) else old(tables)
    {
      ok := task in tables.tasks && (task, n) !in tables.attempts;
      if ok {
        tables := tables.(attempts := tables.attempts[(task, n) := AttemptRow(worker, fence, Unfinished)]);
      }
    }

    method CloseAttempt(task: TaskId, n: nat, outcome: Outcome)
      modifies this
      ensures tables == WithAttemptClosed(old(tables), task, n, outcome)
    {
      if (task, n) in tables.attempts {
        tables := tables.(attempts := tables.attempts[(task, n) := tables.attempts[(task, n)].(outcome := outcome)]);
      }
    }

    method UpdateTaskState(task: TaskId, state: TaskState, attempt: Option<nat>)
      modifies this
      ensures tables.attempts == old(tables).attempts && tables.effects == old(tables).effects
      ensures tables.tasks.Keys == old(tables).tasks.Keys
      ensures forall t :: t in tables.tasks && t != task ==> tables.tasks[t] == old(tables).tasks[t]
      ensures task in tables.tasks ==>
        && tables.tasks[task].state == state
        && tables.tasks[task].attempt == (if attempt.Some? then attempt.value else old(tables).tasks[task].attempt)
        && tables.tasks[task].queue == old(tables).tasks[task].queue
        && tables.tasks[task].dedupKey == old(tables).tasks[task].dedupKey
    {
      if task in tables.tasks {
        var row := tables.tasks[task].(state := state);
        if attempt.Some? {
          row := row.(attempt := attempt.value);
        }
        tables := tables.(tasks := tables.tasks[task := row]);
      }
    }

    /** commit_effect run without interference: the row of a key is written once, the first writer
        wins whatever its fence, and a later writer is rejected or told so by its fence. */
    method CommitEffect(key: string, task: TaskId, fence: nat, result: string) returns (v: Verdict)
      modifies this
      ensures v == Examine(old(tables), key, fence)
      ensures v.Absent? <==> key !in old(tables).effects
      ensures key in tables.effects
      ensures old(tables).effects.Keys <= tables.effects.Keys
      ensures forall k :: k in old(tables).effects ==> tables.effects[k] == old(tables).effects[k]
      ensures v.Absent? ==> tables == WithEffect(old(tables), key, EffectRow(task, fence, result))
      ensures !v.Absent? ==> tables == old(tables)
    {
      if key in tables.effects {
        if tables.effects[key].fence > fence {
          return FenceRejected;
        }
        return AlreadyCommitted;
      }
      tables := tables.(effects := tables.effects[key := EffectRow(task, fence, result)]);
      v := Absent;
    }
  }
}
