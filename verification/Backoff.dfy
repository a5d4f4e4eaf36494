/** Jittered exponential backoff and the retry decision (dtq/core/backoff.py), over exact reals. */
module Backoff {
  import opened Envelopes

  function Pow2(k: nat): real {
    if k == 0 then 1.0 else 2.0 * Pow2(k - 1)
  }

  /** base * 2^k. */
  function Scaled(b: real, k: nat): real {
    if k == 0 then b else 2.0 * Scaled(b, k - 1)
  }

  lemma {:induction false} ScaledIsProduct(b: real, k: nat)
    ensures Scaled(b, k) == b * Pow2(k)
  {
    if k > 0 {
      ScaledIsProduct(b, k - 1);
      var x := Pow2(k - 1);
      assert 2.0 * (b * x) == b * (2.0 * x);
    }
  }

  function Min(x: real, y: real): real {
    if x <= y then x else y
  }

  function Positive(x: real): real {
    if x > 0.0 then x else 0.0
  }

  /** min(base * 2^(attempt-1), cap): the top of the jitter range. */
  function Ceiling(p: RetryPolicy, attempt: nat): real
    requires attempt >= 1
  {
    Min(Scaled(p.baseDelay, attempt - 1), p.cap)
  }

  /** random.uniform(0, capped): any value between 0 and the ceiling, on whichever side it lies. */
  predicate IsDelay(p: RetryPolicy, attempt: nat, delay: real)
    requires attempt >= 1
  {
    var c := Ceiling(p, attempt);
    0.0 <= delay <= c || c <= delay <= 0.0
  }

  /** Retried: below max_attempts, not terminal, and listed if there is a list. */
  predicate IsRetryable(p: RetryPolicy, errorType: string, attempt: nat): (r: bool)
    ensures r <==>
      && attempt < p.maxAttempts
      && errorType !in p.terminalErrors
      && (p.retryableErrors == [] || errorType in p.retryableErrors)
  {
    if attempt >= p.maxAttempts then false
    else if errorType in p.terminalErrors then false
    else if p.retryableErrors != [] then errorType in p.retryableErrors
    else true
  }

  /** One retry of a task: the attempt number it was scheduled as and the delay drawn. */
  datatype Retry = Retry(attempt: nat, delay: real)

  /** Every retry is below max_attempts and waits for what compute_delay may draw. */
  predicate Drawn(p: RetryPolicy, rs: seq<Retry>) {
    forall i :: 0 <= i < |rs| ==>
      1 <= rs[i].attempt < p.maxAttempts && IsDelay(p, rs[i].attempt, rs[i].delay)
  }

  /** No attempt number is scheduled twice; the order is free. */
  predicate EachOnce(rs: seq<Retry>) {
    forall i, j :: 0 <= i < j < |rs| ==> rs[i].attempt != rs[j].attempt
  }

  function TotalDelay(rs: seq<Retry>): real {
    if rs == [] then 0.0 else TotalDelay(rs[..|rs| - 1]) + rs[|rs| - 1].delay
  }

  lemma {:induction false} ScaledMonotone(b: real, j: nat, k: nat)
    requires b >= 0.0 && j <= k
    ensures 0.0 <= Scaled(b, j) <= Scaled(b, k)
    decreases k
  {
    if k > 0 { ScaledMonotone(b, if j < k then j else k - 1, k - 1); }
  }

  lemma {:induction false} ScaledNegative(b: real, k: nat)
    requires b <= 0.0
    ensures Scaled(b, k) <= 0.0
  {
    if k > 0 { ScaledNegative(b, k - 1); }
  }

  /** The ceiling of a policy with a non-negative base never shrinks from one retry to a later one
      and, once base * 2^(attempt-1) has reached the cap, it is the cap for good. */
  lemma CeilingGrowsToCap(p: RetryPolicy, attempt: nat, later: nat)
    requires p.baseDelay >= 0.0 && 1 <= attempt <= later
    ensures Ceiling(p, attempt) <= Ceiling(p, later) <= p.cap
    ensures p.baseDelay * Pow2(attempt - 1) >= p.cap ==> Ceiling(p, later) == p.cap
  {
    ScaledMonotone(p.baseDelay, attempt - 1, later - 1);
    ScaledIsProduct(p.baseDelay, attempt - 1);
  }

  /** Full jitter, exactly: what may be drawn is everything from 0 to the smaller of base * 2^(attempt-1)
      and the cap, on whichever side of 0 that lies, and nothing else. */
  lemma DelayExact(p: RetryPolicy, attempt: nat, delay: real)
    requires attempt >= 1
    ensures var top := p.baseDelay * Pow2(attempt - 1);
      IsDelay(p, attempt, delay) <==>
        || (delay >= 0.0 && delay <= top && delay <= p.cap)
        || (delay <= 0.0 && (top <= delay || p.cap <= delay))
  {
    ScaledIsProduct(p.baseDelay, attempt - 1);
  }

  lemma DelayBounds(p: RetryPolicy, attempt: nat, delay: real)
    requires attempt >= 1 && IsDelay(p, attempt, delay)
    ensures delay <= Scaled(Positive(p.baseDelay), attempt - 1)
    ensures delay <= Positive(p.cap)
  {
    ScaledMonotone(Positive(p.baseDelay), 0, attempt - 1);
    if p.baseDelay <= 0.0 { ScaledNegative(p.baseDelay, attempt - 1); }
  }

  /** The uncapped ceilings of attempts 1..last, added up. */
  function Series(b: real, last: nat): real {
    if last == 0 then 0.0 else Series(b, last - 1) + Scaled(b, last - 1)
  }

  /** The geometric series: b + 2b + ... + 2^(last-1) b. */
  lemma {:induction false} SeriesClosedForm(b: real, last: nat)
    ensures Series(b, last) == Scaled(b, last) - b
  {
    if last > 0 { SeriesClosedForm(b, last - 1); }
  }

  lemma {:induction false} SeriesMonotone(b: real, j: nat, k: nat)
    requires b >= 0.0 && j <= k
    ensures 0.0 <= Series(b, j) <= Series(b, k)
    decreases k
  {
    if k > 0 {
      ScaledMonotone(b, 0, k - 1);
      SeriesMonotone(b, if j < k then j else k - 1, k - 1);
    }
  }

  function Times(c: real, n: nat): real {
    if n == 0 then 0.0 else Times(c, n - 1) + c
  }

  lemma {:induction false} TimesIsProduct(c: real, n: nat)
    ensures Times(c, n) == c * (n as real)
  {
    if n > 0 {
      TimesIsProduct(c, n - 1);
      var before := (n - 1) as real;
      assert c * before + c == c * (before + 1.0);
      assert n as real == before + 1.0;
    }
  }

  lemma {:induction false} TimesMonotone(c: real, j: nat, k: nat)
    requires c >= 0.0 && j <= k
    ensures 0.0 <= Times(c, j) <= Times(c, k)
    decreases k
  {
    if k > 0 { TimesMonotone(c, if j < k then j else k - 1, k - 1); }
  }

  lemma {:induction false} TotalDelayRemove(rs: seq<Retry>, i: nat)
    requires i < |rs|
    ensures TotalDelay(rs) == TotalDelay(rs[..i] + rs[i + 1..]) + rs[i].delay
  {
    var last := |rs| - 1;
    if i == last {
      assert rs[..i] + rs[i + 1..] == rs[..last];
    } else {
      var rest := rs[..i] + rs[i + 1..];
      assert rest[..|rest| - 1] == rs[..last][..i] + rs[..last][i + 1..];
      TotalDelayRemove(rs[..last], i);
    }
  }

  /** What the sum argument needs of a list of retries up to attempt number `last`. */
  predicate Within(rs: seq<Retry>, b: real, c: real, last: nat) {
    && EachOnce(rs)
    && forall i :: 0 <= i < |rs| ==>
         1 <= rs[i].attempt <= last && rs[i].delay <= Scaled(b, rs[i].attempt - 1) && rs[i].delay <= c
  }

  lemma DrawnWithin(p: RetryPolicy, rs: seq<Retry>, last: nat)
    requires Drawn(p, rs) && EachOnce(rs) && p.maxAttempts <= last + 1
    ensures Within(rs, Positive(p.baseDelay), Positive(p.cap), last)
  {
    forall i | 0 <= i < |rs|
      ensures rs[i].delay <= Scaled(Positive(p.baseDelay), rs[i].attempt - 1)
      ensures rs[i].delay <= Positive(p.cap)
    {
      DelayBounds(p, rs[i].attempt, rs[i].delay);
    }
  }

  /** Taking out the retry with the highest number, if it is there, leaves a shorter series. */
  lemma TakeLast(rs: seq<Retry>, b: real, c: real, last: nat, i: nat)
    requires Within(rs, b, c, last) && i < |rs| && rs[i].attempt == last
    ensures Within(rs[..i] + rs[i + 1..], b, c, last - 1)
  {
    var rest := rs[..i] + rs[i + 1..];
    forall k | 0 <= k < |rest|
      ensures 1 <= rest[k].attempt <= last - 1
      ensures rest[k].delay <= Scaled(b, rest[k].attempt - 1) && rest[k].delay <= c
    {
      var m := if k < i then k else k + 1;
      assert rest[k] == rs[m] && rs[m].attempt != rs[i].attempt;
    }
    forall k, m | 0 <= k < m < |rest| ensures rest[k].attempt != rest[m].attempt {
      assert rest[k] == rs[if k < i then k else k + 1] && rest[m] == rs[if m < i then m else m + 1];
    }
  }

  lemma SplitOff(rs: seq<Retry>, b: real, c: real, last: nat) returns (rest: seq<Retry>)
    requires b >= 0.0 && c >= 0.0 && Within(rs, b, c, last) && last > 0
    ensures Within(rest, b, c, last - 1) && |rs| <= |rest| + 1
    ensures TotalDelay(rs) <= TotalDelay(rest) + Scaled(b, last - 1) && TotalDelay(rs) <= TotalDelay(rest) + c
  {
    ScaledMonotone(b, 0, last - 1);
    if i :| 0 <= i < |rs| && rs[i].attempt == last {
      rest := rs[..i] + rs[i + 1..];
      TotalDelayRemove(rs, i);
      TakeLast(rs, b, c, last, i);
    } else {
      rest := rs;
    }
  }

  lemma {:induction false} TotalDelayUpTo(rs: seq<Retry>, b: real, c: real, last: nat)
    requires b >= 0.0 && c >= 0.0 && Within(rs, b, c, last)
    ensures TotalDelay(rs) <= Series(b, last)
    ensures TotalDelay(rs) <= Times(c, last)
    ensures |rs| <= last
    decreases last
  {
    if rs == [] {
      SeriesMonotone(b, 0, last);
      TimesMonotone(c, 0, last);
    } else {
      assert 1 <= rs[0].attempt <= last;
      var rest := SplitOff(rs, b, c, last);
      TotalDelayUpTo(rest, b, c, last - 1);
    }
  }

  /** At most min(b * (2^retries - 1), c * retries). */
  predicate AtMost(total: real, b: real, c: real, retries: nat) {
    total <= b * (Pow2(retries) - 1.0) && total <= c * (retries as real)
  }

  /** The backoff of retries with different attempt numbers, for every jitter choice and in every
      order.  A negative base or cap counts as 0, because the draw is then never positive. */
  lemma DistinctRetriesBound(p: RetryPolicy, rs: seq<Retry>, last: nat)
    requires Drawn(p, rs) && EachOnce(rs) && p.maxAttempts <= last + 1
    ensures AtMost(TotalDelay(rs), Positive(p.baseDelay), Positive(p.cap), last)
    ensures |rs| <= last
  {
    var b, c := Positive(p.baseDelay), Positive(p.cap);
    DrawnWithin(p, rs, last);
    TotalDelayUpTo(rs, b, c, last);
    ClosedForms(TotalDelay(rs), b, c, last);
  }

  /** Retries that all carry the same number and wait as long as they may. */
  lemma {:induction false} RepeatedDelay(r: Retry, k: nat)
    ensures TotalDelay(seq(k, _ => r)) == r.delay * (k as real)
  {
    if k > 0 {
      RepeatedDelay(r, k - 1);
      assert seq(k, _ => r)[..k - 1] == seq(k - 1, _ => r);
      var before := (k - 1) as real;
      assert k as real == before + 1.0;
      assert r.delay * before + r.delay == r.delay * (before + 1.0);
    }
  }

  lemma ClosedForms(total: real, b: real, c: real, last: nat)
    requires total <= Series(b, last) && total <= Times(c, last)
    ensures AtMost(total, b, c, last)
  {
    SeriesClosedForm(b, last);
    ScaledIsProduct(b, last);
    TimesIsProduct(c, last);
  }
}
