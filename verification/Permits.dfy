/** The concurrency limit of one worker (dtq/worker/loop.py): the poll loop and the reclaim loop both
    take a permit per message before they start a handler, and every handler gives its permit back in
    its finally block, whether it returned or raised.  An exception in the reclaim loop drops what is
    left of its batch; no permit has been taken for that. */
module Permits {

  /** A started handler: still at work, or past it, by return or by exception, and not yet released. */
  datatype Handler = Working | Leaving

  /** Messages read but still waiting for a permit sit in the two loops; handlers have numbers. */
  datatype Loops = Loops(free: nat, polled: nat, reclaimed: nat, handlers: map<nat, Handler>, started: nat)

  datatype Event =
    | Poll(count: nat)
    | Adopt(count: nat)
    | StartPolled
    | StartReclaimed
    | DropReclaimed                  // the reclaim loop's except branch
    | Leave(handler: nat)            // the try block ends
    | Release(handler: nat)          // the finally block

  predicate Possible(l: Loops, ev: Event) {
    match ev
    case Poll(count) => l.polled == 0 && l.free > 0 && count <= l.free && count <= 5
    case Adopt(count) => l.reclaimed == 0 && count <= 5
    case StartPolled => l.polled > 0 && l.free > 0
    case StartReclaimed => l.reclaimed > 0 && l.free > 0
    case DropReclaimed => true
    case Leave(handler) => handler in l.handlers && l.handlers[handler].Working?
    case Release(handler) => handler in l.handlers && l.handlers[handler].Leaving?
  }

  /** acquire, then create_task. */
  function Started(l: Loops): Loops
    requires l.free > 0
  {
    l.(free := l.free - 1, handlers := l.handlers[l.started := Working], started := l.started + 1)
  }

  function Happen(l: Loops, ev: Event): Loops
    requires Possible(l, ev)
  {
    match ev
    case Poll(count) => l.(polled := count)
    case Adopt(count) => l.(reclaimed := count)
    case StartPolled => Started(l).(polled := l.polled - 1)
    case StartReclaimed => Started(l).(reclaimed := l.reclaimed - 1)
    case DropReclaimed => l.(reclaimed := 0)
    case Leave(handler) => l.(handlers := l.handlers[handler := Leaving])
    case Release(handler) => l.(free := l.free + 1, handlers := l.handlers - {handler})
  }

  predicate PossibleRun(l: Loops, evs: seq<Event>)
    decreases evs
  {
    evs == [] || (Possible(l, evs[0]) && PossibleRun(Happen(l, evs[0]), evs[1..]))
  }

  function After(l: Loops, evs: seq<Event>): Loops
    requires PossibleRun(l, evs)
    decreases evs
  {
    if evs == [] then l else After(Happen(l, evs[0]), evs[1..])
  }

  ghost predicate Balanced(l: Loops, concurrency: nat) {
    l.free + |l.handlers.Keys| == concurrency && forall h :: h in l.handlers ==> h < l.started
  }

  lemma BalancedStep(l: Loops, concurrency: nat, ev: Event)
    requires Balanced(l, concurrency) && Possible(l, ev)
    ensures Balanced(Happen(l, ev), concurrency)
  {
    match ev
    case StartPolled => assert Happen(l, ev).handlers.Keys == l.handlers.Keys + {l.started};
    case StartReclaimed => assert Happen(l, ev).handlers.Keys == l.handlers.Keys + {l.started};
    case Leave(handler) => assert Happen(l, ev).handlers.Keys == l.handlers.Keys;
    case Release(handler) => assert Happen(l, ev).handlers.Keys == l.handlers.Keys - {handler};
    case _ =>
  }

  function AtWork(l: Loops): set<nat> {
    set h | h in l.handlers && l.handlers[h].Working?
  }

  lemma AtWorkAreHandlers(l: Loops)
    ensures |AtWork(l)| <= |l.handlers.Keys|
  {
    assert l.handlers.Keys == AtWork(l) + (l.handlers.Keys - AtWork(l));
  }

  /** Permits are conserved in every interleaving of both loops with handlers that return or raise and
      with batches dropped half way: free permits and unreleased handlers always make up the configured
      concurrency.  So at most that many handlers are at work at once, a message that waits for a
      permit never waits while there is no handler, and when all handlers are done every permit is back. */
  lemma {:induction false} PermitsConserved(l: Loops, concurrency: nat, evs: seq<Event>)
    requires Balanced(l, concurrency) && PossibleRun(l, evs)
    ensures var l' := After(l, evs);
      && Balanced(l', concurrency)
      && |AtWork(l')| <= concurrency
      && (concurrency > 0 && l'.free == 0 ==> l'.handlers != map[])
      && (l'.handlers == map[] ==> l'.free == concurrency)
    decreases evs
  {
    if evs == [] {
      AtWorkAreHandlers(l);
      assert l.handlers == map[] <==> l.handlers.Keys == {};
    } else {
      BalancedStep(l, concurrency, evs[0]);
      PermitsConserved(Happen(l, evs[0]), concurrency, evs[1..]);
    }
  }

  /** How many messages the events of a run read, and how many of those the reclaim loop dropped. */
  function Read(evs: seq<Event>): nat {
    if evs == [] then 0
    else (if evs[0].Poll? || evs[0].Adopt? then evs[0].count else 0) + Read(evs[1..])
  }

  function Dropped(l: Loops, evs: seq<Event>): nat
    requires PossibleRun(l, evs)
    decreases evs
  {
    if evs == [] then 0
    else (if evs[0].DropReclaimed? then l.reclaimed else 0) + Dropped(Happen(l, evs[0]), evs[1..])
  }

  /** Every message read gets a handler, is still waiting for a permit, or was dropped with its batch. */
  lemma {:induction false} MessagesAccounted(l: Loops, evs: seq<Event>)
    requires PossibleRun(l, evs)
    ensures var l' := After(l, evs);
      l'.started + l'.polled + l'.reclaimed + Dropped(l, evs) == l.started + l.polled + l.reclaimed + Read(evs)
    decreases evs
  {
    if evs != [] { MessagesAccounted(Happen(l, evs[0]), evs[1..]); }
  }

  /** The poll loop reads no more than it has permits for: as long as the reclaim loop starts nothing, a
      polled message never waits. */
  lemma {:induction false} PollNeverWaits(l: Loops, evs: seq<Event>)
    requires PossibleRun(l, evs) && l.polled <= l.free
    requires forall i :: 0 <= i < |evs| ==> !evs[i].StartReclaimed?
    ensures After(l, evs).polled <= After(l, evs).free
    decreases evs
  {
    if evs != [] {
      assert forall i :: 0 <= i < |evs[1..]| ==> evs[1..][i] == evs[i + 1];
      PollNeverWaits(Happen(l, evs[0]), evs[1..]);
    }
  }
}
