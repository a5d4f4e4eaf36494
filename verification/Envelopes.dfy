/** The wire format carried through the broker (dtq/core/models.py).
    Payloads, results and error texts are opaque strings; a task id is the text of its UUID,
    because that text is what the lease key and the default effect key are built from. */
module Envelopes {

  datatype Option<+T> = None | Some(value: T)

  type TaskId = string

  datatype RetryPolicy = RetryPolicy(
    baseDelay: real,
    cap: real,
    maxAttempts: int,
    retryableErrors: seq<string>,
    terminalErrors: seq<string>)

  datatype Envelope = Envelope(
    taskId: TaskId,
    queue: string,
    taskName: string,
    payload: string,
    attempt: nat,
    dedupKey: Option<string>,
    policy: RetryPolicy)

  /** Python's `envelope.dedup_key or task_id`: an absent or empty key falls back to the task id. */
  function EffectKey(e: Envelope): string {
    if e.dedupKey.Some? && e.dedupKey.value != "" then e.dedupKey.value else e.taskId
  }

  /** The envelope of a retry or of a reclaimed delivery. */
  function NextAttempt(e: Envelope): Envelope {
    e.(attempt := e.attempt + 1)
  }

  /** The envelope as it was first published. */
  function Origin(e: Envelope): Envelope {
    e.(attempt := 0)
  }
}
