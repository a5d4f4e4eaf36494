/** The scheduled set of one queue and its promotion into the stream
    (dtq/broker/scripts/promote_scheduled.lua, `schedule` in dtq/broker/redis_broker.py). */
module Promotion {

  /** A sorted-set member, the serialised envelope, with its wake time. */
  datatype Item = Item(score: real, member: string)

  predicate LexLess(s: string, t: string) {
    t != "" && (s == "" || s[0] < t[0] || (s[0] == t[0] && LexLess(s[1..], t[1..])))
  }

  /** Redis orders a sorted set by score, then by member. */
  predicate Before(a: Item, b: Item) {
    a.score < b.score || (a.score == b.score && LexLess(a.member, b.member))
  }

  /** A sorted set: strictly increasing in that order, no member twice. */
  ghost predicate ZSet(z: seq<Item>) {
    && (forall i, j :: 0 <= i < j < |z| ==> Before(z[i], z[j]))
    && (forall i, j :: 0 <= i < j < |z| ==> z[i].member != z[j].member)
  }

  function Members(z: seq<Item>): (ms: seq<string>)
    ensures |ms| == |z| && forall i :: 0 <= i < |z| ==> ms[i] == z[i].member
  {
    seq(|z|, i requires 0 <= i < |z| => z[i].member)
  }

  /** ZREM. */
  function Remove(z: seq<Item>, member: string): seq<Item> {
    if z == [] then [] else if z[0].member == member then Remove(z[1..], member)
    else [z[0]] + Remove(z[1..], member)
  }

  /** The place of an item in the order. */
  function Insert(z: seq<Item>, x: Item): seq<Item> {
    if z == [] || Before(x, z[0]) then [x] + z else [z[0]] + Insert(z[1..], x)
  }

  /** ZADD: a member that is already there only moves to its new score. */
  function Add(z: seq<Item>, score: real, member: string): seq<Item> {
    Insert(Remove(z, member), Item(score, member))
  }

  lemma {:induction false} LexTransitive(s: string, t: string, u: string)
    requires LexLess(s, t) && LexLess(t, u)
    ensures LexLess(s, u)
  {
    if s != "" && s[0] == t[0] && t[0] == u[0] { LexTransitive(s[1..], t[1..], u[1..]); }
  }

  lemma {:induction false} LexTotal(s: string, t: string)
    ensures s == t || LexLess(s, t) || LexLess(t, s)
  {
    if s != "" && t != "" {
      LexTotal(s[1..], t[1..]);
      if s[1..] == t[1..] && s[0] == t[0] {
        assert s == [s[0]] + s[1..] && t == [t[0]] + t[1..];
      }
    }
  }

  lemma BeforeTransitive(a: Item, b: Item, c: Item)
    requires Before(a, b) && Before(b, c)
    ensures Before(a, c)
  {
    if a.score == b.score == c.score { LexTransitive(a.member, b.member, c.member); }
  }

  lemma {:induction false} RemoveKeepsOrder(z: seq<Item>, member: string)
    requires ZSet(z)
    ensures ZSet(Remove(z, member))
    ensures forall x :: x in Remove(z, member) <==> x in z && x.member != member
  {
    if z != [] {
      assert ZSet(z[1..]);
      RemoveKeepsOrder(z[1..], member);
      assert z == [z[0]] + z[1..];
      var rest := Remove(z[1..], member);
      forall j | 0 <= j < |rest| ensures Before(z[0], rest[j]) && z[0].member != rest[j].member {
        assert rest[j] in z[1..];
      }
    }
  }

  lemma {:induction false} InsertKeepsOrder(z: seq<Item>, x: Item)
    requires ZSet(z) && forall y :: y in z ==> y.member != x.member
    ensures ZSet(Insert(z, x))
    ensures forall y :: y in Insert(z, x) <==> y in z || y == x
  {
    if z != [] {
      assert z == [z[0]] + z[1..];
      if Before(x, z[0]) {
        forall j | 0 <= j < |z| ensures Before(x, z[j]) && x.member != z[j].member {
          if j > 0 { BeforeTransitive(x, z[0], z[j]); }
          assert z[j] in z;
        }
      } else {
        assert z[0] in z;
        LexTotal(x.member, z[0].member);
        assert Before(z[0], x);
        InsertKeepsOrder(z[1..], x);
        var rest := Insert(z[1..], x);
        forall j | 0 <= j < |rest| ensures Before(z[0], rest[j]) && z[0].member != rest[j].member {
          if rest[j] != x { assert rest[j] in z[1..]; }
        }
      }
    }
  }

  /** ZADD keeps the set a set and changes the score of one member and nothing else. */
  lemma AddKeepsOthers(z: seq<Item>, score: real, member: string)
    requires ZSet(z)
    ensures ZSet(Add(z, score, member))
    ensures forall x :: x in Add(z, score, member) <==>
      (x in z && x.member != member) || x == Item(score, member)
  {
    RemoveKeepsOrder(z, member);
    InsertKeepsOrder(Remove(z, member), Item(score, member));
  }

  /** How many members are due; in a sorted set they are its front. */
  function DueCount(z: seq<Item>, now: real): (n: nat)
    ensures n <= |z|
    ensures forall i :: 0 <= i < n ==> z[i].score <= now
    ensures n < |z| ==> z[n].score > now
  {
    if z == [] || z[0].score > now then 0 else 1 + DueCount(z[1..], now)
  }

  lemma NothingDueBehind(z: seq<Item>, now: real, i: nat)
    requires ZSet(z) && i < |z|
    ensures z[i].score <= now <==> i < DueCount(z, now)
  {
    var n := DueCount(z, now);
    if n < i { assert Before(z[n], z[i]); }
  }

  function Batch(z: seq<Item>, now: real, limit: nat): (n: nat)
    ensures n <= |z| && n <= limit
  {
    if DueCount(z, now) <= limit then DueCount(z, now) else limit
  }

  /** One scheduler tick. */
  function Tick(z: seq<Item>, now: real, limit: nat): seq<Item> {
    z[Batch(z, now, limit)..]
  }

  function Ticks(z: seq<Item>, now: real, limit: nat, k: nat): seq<Item> {
    if k == 0 then z else Tick(Ticks(z, now, limit, k - 1), now, limit)
  }

  lemma {:induction false} RemoveAbsent(z: seq<Item>, member: string)
    requires forall x :: x in z ==> x.member != member
    ensures Remove(z, member) == z
  {
    if z != [] {
      assert z == [z[0]] + z[1..];
      assert z[0] in z;
      RemoveAbsent(z[1..], member);
    }
  }

  lemma RemoveHead(z: seq<Item>)
    requires ZSet(z) && z != []
    ensures Remove(z, z[0].member) == z[1..]
    ensures ZSet(z[1..])
  {
    forall x | x in z[1..] ensures x.member != z[0].member {
      var i :| 0 <= i < |z[1..]| && z[1..][i] == x;
      assert z[i + 1] == x;
    }
    RemoveAbsent(z[1..], z[0].member);
  }

  lemma {:induction false} DropDue(z: seq<Item>, now: real, k: nat)
    requires ZSet(z) && k <= DueCount(z, now)
    ensures ZSet(z[k..])
    ensures DueCount(z[k..], now) == DueCount(z, now) - k
  {
    var n, m := DueCount(z, now), DueCount(z[k..], now);
    assert forall i :: k <= i < |z| ==> z[k..][i - k] == z[i];
  }

  /** Subtraction that stops at 0. */
  function Less(n: nat, m: nat): nat {
    if m <= n then n - m else 0
  }

  lemma TickTakes(z: seq<Item>, now: real, limit: nat)
    requires ZSet(z)
    ensures ZSet(Tick(z, now, limit))
    ensures DueCount(Tick(z, now, limit), now) == Less(DueCount(z, now), limit)
  {
    DropDue(z, now, Batch(z, now, limit));
  }

  lemma LessAgain(n: nat, limit: nat, k: nat)
    requires k > 0
    ensures Less(Less(n, (k - 1) * limit), limit) == Less(n, k * limit)
  {
    assert k * limit == (k - 1) * limit + limit;
  }

  lemma {:induction false} TicksTake(z: seq<Item>, now: real, limit: nat, k: nat)
    requires ZSet(z)
    ensures ZSet(Ticks(z, now, limit, k))
    ensures DueCount(Ticks(z, now, limit, k), now) == Less(DueCount(z, now), k * limit)
  {
    if k > 0 {
      TicksTake(z, now, limit, k - 1);
      TickTakes(Ticks(z, now, limit, k - 1), now, limit);
      LessAgain(DueCount(z, now), limit, k);
    }
  }

  /** Each tick takes exactly `limit` due members while there are that many, so n due members drain
      in ceil(n / limit) ticks at a fixed time and no sooner. */
  lemma TicksDrain(z: seq<Item>, now: real, limit: nat, k: nat)
    requires ZSet(z)
    ensures ZSet(Ticks(z, now, limit, k))
    ensures DueCount(Ticks(z, now, limit, k), now) ==
      if k * limit <= DueCount(z, now) then DueCount(z, now) - k * limit else 0
    ensures limit >= 1 ==>
      (DueCount(Ticks(z, now, limit, k), now) == 0 <==> k >= (DueCount(z, now) + limit - 1) / limit)
  {
    TicksTake(z, now, limit, k);
    if limit >= 1 { CeilingDivision(DueCount(z, now), limit, k); }
  }

  lemma CeilingDivision(n: nat, limit: nat, k: nat)
    requires limit >= 1
    ensures k * limit >= n <==> k >= (n + limit - 1) / limit
  {
    var q := (n + limit - 1) / limit;
    assert q * limit <= n + limit - 1 < q * limit + limit;
    if k >= q { assert k * limit >= q * limit; } else { assert (k + 1) * limit <= q * limit; }
  }

  /** What leaves is due, what stays is not unless the limit cut the batch short, and the two
      together are what there was. */
  lemma TickConserves(z: seq<Item>, now: real, limit: nat)
    requires ZSet(z)
    ensures var n := Batch(z, now, limit);
      && multiset(z) == multiset(Tick(z, now, limit)) + multiset(z[..n])
      && (forall x :: x in z[..n] ==> x.score <= now)
      && (n < limit ==> forall x :: x in Tick(z, now, limit) ==> x.score > now)
  {
    var n := Batch(z, now, limit);
    assert z == z[..n] + z[n..];
    forall x | x in z[n..] && n < limit ensures x.score > now {
      var j :| 0 <= j < |z[n..]| && z[n..][j] == x;
      NothingDueBehind(z, now, n + j);
    }
  }

  class ScheduledQueue {
    var scheduled: seq<Item>
    var stream: seq<string>

    ghost predicate Valid()
      reads this
    {
      ZSet(scheduled)
    }

    constructor ()
      ensures Valid() && scheduled == [] && stream == []
    {
      scheduled, stream := [], [];
    }

    method Schedule(data: string, runAt: real)
      requires Valid()
      modifies this`scheduled
      ensures Valid() && scheduled == Add(old(scheduled), runAt, data)
    {
      AddKeepsOthers(scheduled, runAt, data);
      scheduled := Add(scheduled, runAt, data);
    }

    /** ZRANGEBYSCORE key -inf now LIMIT 0 limit. */
    method RangeByScore(now: real, limit: nat) returns (due: seq<string>)
      ensures due == Members(scheduled[..Batch(scheduled, now, limit)])
    {
      due := [];
      while |due| < |scheduled| && |due| < limit && scheduled[|due|].score <= now
        invariant |due| <= Batch(scheduled, now, limit)
        invariant due == Members(scheduled[..|due|])
      {
        due := due + [scheduled[|due|].member];
      }
    }

    /** The script: the due members leave the set and join the stream, in order, and nothing else
        changes. */
    method PromoteScheduled(now: real, limit: nat) returns (count: nat)
      requires Valid()
      modifies this
      ensures Valid()
      ensures count == Batch(old(scheduled), now, limit)
      ensures scheduled == Tick(old(scheduled), now, limit)
      ensures stream == old(stream) + Members(old(scheduled)[..count])
      ensures multiset(old(scheduled)) == multiset(scheduled) + multiset(old(scheduled)[..count])
      ensures forall x :: x in old(scheduled)[..count] ==> x.score <= now
      ensures count < limit ==> forall x :: x in scheduled ==> x.score > now
    {
      ghost var all := scheduled;
      var due := RangeByScore(now, limit);
      count := 0;
      for i := 0 to |due|
        invariant count == i && ZSet(scheduled)
        invariant scheduled == all[i..]
        invariant stream == old(stream) + due[..i]
      {
        RemoveHead(scheduled);
        stream := stream + [due[i]];
        scheduled := Remove(scheduled, due[i]);
        count := count + 1;
      }
      TickConserves(all, now, limit);
    }
  }
}
