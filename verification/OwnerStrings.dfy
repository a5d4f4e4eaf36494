/** The owner string `worker:fence` that guards a lease.  acquire_lease.lua builds it with Lua's
    `tostring`, the broker rebuilds it in Python with an f-string.  The two printers agree on every
    fence below 10^14 and on none from there on, so this module models both. */
module OwnerStrings {

  const LUA_PLAIN_LIMIT: nat := 100_000_000_000_000

  function Digit(d: nat): char
    requires d < 10
  {
    "0123456789"[d]
  }

  /** Python's `str(n)`. */
  function Decimal(n: nat): string {
    if n < 10 then [Digit(n)] else Decimal(n / 10) + [Digit(n % 10)]
  }

  /** Python's `int(s)` on digits. */
  function Value(s: string): nat {
    if s == "" then 0
    else
      var last := s[|s| - 1];
      10 * Value(s[..|s| - 1]) + (if '0' <= last <= '9' then last as int - '0' as int else 0)
  }

  /** A fence printed in plain decimals reads back as itself, and has no leading zero. */
  lemma {:induction false} DecimalReadsBack(n: nat)
    ensures Decimal(n) != "" && Value(Decimal(n)) == n
    ensures n > 0 ==> Decimal(n)[0] != '0'
  {
    if n < 10 {
      assert Value("") == 0;
      assert Decimal(n)[..0] == "";
    } else {
      DecimalReadsBack(n / 10);
      assert Decimal(n)[..|Decimal(n)| - 1] == Decimal(n / 10);
    }
  }

  /** One more in the last place, on decimal digits. */
  function Increment(s: string): string {
    if s == "" then "1"
    else
      var last := |s| - 1;
      if s[last] < '9' then s[..last] + [(s[last] as int + 1) as char] else Increment(s[..last]) + "0"
  }

  predicate AllZero(s: string) {
    s == "" || (s[0] == '0' && AllZero(s[1..]))
  }

  /** Round half to even when `tail` is cut off behind `head`. */
  predicate RoundsUp(head: string, tail: string) {
    && tail != ""
    && (|| tail[0] > '5'
        || (tail[0] == '5' && (!AllZero(tail[1..]) || (head != "" && head[|head| - 1] in "13579"))))
  }

  function StripZeros(s: string): string {
    if |s| > 1 && s[|s| - 1] == '0' then StripZeros(s[..|s| - 1]) else s
  }

  function WithPoint(mantissa: string): string {
    if |mantissa| <= 1 then mantissa else [mantissa[0]] + "." + mantissa[1..]
  }

  /** C's `%.14g` on a number of at least fifteen digits: fourteen significant digits, trailing zeros
      dropped, and an exponent. */
  function Scientific(digits: string): string {
    var cut := if |digits| < 14 then |digits| else 14;
    var head, tail := digits[..cut], digits[cut..];
    var mantissa := if RoundsUp(head, tail) then Increment(head) else head;
    var exponent := |digits| - 1 + |mantissa| - |head|;
    WithPoint(StripZeros(mantissa)) + "e+" + Decimal(if exponent < 0 then 0 else exponent)
  }

  /** Lua 5.1's `tostring` on an integer-valued number. */
  function LuaToString(n: nat): string {
    if n < LUA_PLAIN_LIMIT then Decimal(n) else Scientific(Decimal(n))
  }

  /** What acquire_lease.lua stores under the lease key. */
  function StoredOwner(worker: string, fence: nat): string {
    worker + ":" + LuaToString(fence)
  }

  /** What release_lease and extend_lease in the broker compare with. */
  function ExpectedOwner(worker: string, fence: nat): string {
    worker + ":" + Decimal(fence)
  }

  lemma {:induction false} DecimalNonEmpty(n: nat)
    ensures |Decimal(n)| >= 1
  {
    if n >= 10 { DecimalNonEmpty(n / 10); }
  }

  lemma {:induction false} DecimalIsDigits(n: nat)
    ensures IsDigits(Decimal(n))
  {
    if n >= 10 { DecimalIsDigits(n / 10); }
  }

  lemma {:induction false} DecimalInjective(m: nat, n: nat)
    requires Decimal(m) == Decimal(n)
    ensures m == n
    decreases m + n
  {
    if m >= 10 { DecimalNonEmpty(m / 10); }
    if n >= 10 { DecimalNonEmpty(n / 10); }
    var a, b := Decimal(m), Decimal(n);
    assert a[|a| - 1] == Digit(m % 10) && b[|b| - 1] == Digit(n % 10);
    assert m % 10 == n % 10;
    if m >= 10 && n >= 10 {
      assert a[..|a| - 1] == Decimal(m / 10) && b[..|b| - 1] == Decimal(n / 10);
      DecimalInjective(m / 10, n / 10);
    }
  }

  predicate IsDigits(s: string) {
    forall i :: 0 <= i < |s| ==> '0' <= s[i] <= '9'
  }

  lemma {:induction false} IncrementIsDigits(s: string)
    requires IsDigits(s)
    ensures IsDigits(Increment(s))
  {
    if s != "" && s[|s| - 1] >= '9' { IncrementIsDigits(s[..|s| - 1]); }
  }

  lemma {:induction false} StripZerosIsDigits(s: string)
    requires IsDigits(s)
    ensures IsDigits(StripZeros(s))
  {
    if |s| > 1 && s[|s| - 1] == '0' { StripZerosIsDigits(s[..|s| - 1]); }
  }

  lemma ExponentShape(mantissa: string, exponent: string)
    requires IsDigits(mantissa) && IsDigits(exponent)
    ensures ':' !in WithPoint(mantissa) + "e+" + exponent
    ensures 'e' in WithPoint(mantissa) + "e+" + exponent
  {
    var head := WithPoint(mantissa);
    assert (head + "e+" + exponent)[|head|] == 'e';
  }

  lemma ScientificShape(digits: string)
    requires IsDigits(digits)
    ensures ':' !in Scientific(digits)
    ensures 'e' in Scientific(digits)
  {
    var cut := if |digits| < 14 then |digits| else 14;
    var head, tail := digits[..cut], digits[cut..];
    IncrementIsDigits(head);
    var mantissa := if RoundsUp(head, tail) then Increment(head) else head;
    StripZerosIsDigits(mantissa);
    var exponent := |digits| - 1 + |mantissa| - |head|;
    var e: nat := if exponent < 0 then 0 else exponent;
    DecimalIsDigits(e);
    ExponentShape(StripZeros(mantissa), Decimal(e));
  }

  lemma LuaToStringHasNoColon(n: nat)
    ensures ':' !in LuaToString(n)
  {
    DecimalIsDigits(n);
    ScientificShape(Decimal(n));
  }

  /** The last colon splits the string, whatever colons the worker id holds. */
  lemma {:induction false} SplitAtLastColon(u: string, x: string, v: string, y: string)
    requires u + ":" + x == v + ":" + y
    requires ':' !in x && ':' !in y
    ensures u == v && x == y
  {
    var s, t := u + ":" + x, v + ":" + y;
    assert s[|u|] == ':' && t[|v|] == ':';
    assert |u| == |v|;
    assert s[..|u|] == u && t[..|v|] == v;
    assert s[|u| + 1..] == x && t[|v| + 1..] == y;
  }

  /** A stored owner string answers to one expected string only, that of the very worker and fence
      it was issued to, and it does so exactly while Lua prints the fence in plain decimals. */
  lemma OwnerMatchesExactly(w: string, f: nat, w': string, f': nat)
    ensures StoredOwner(w, f) == ExpectedOwner(w', f') <==> w == w' && f == f' && f < LUA_PLAIN_LIMIT
  {
    LuaToStringHasNoColon(f);
    DecimalIsDigits(f');
    if StoredOwner(w, f) == ExpectedOwner(w', f') {
      SplitAtLastColon(w, LuaToString(f), w', Decimal(f'));
      if f < LUA_PLAIN_LIMIT {
        DecimalInjective(f, f');
      } else {
        DecimalIsDigits(f);
        ScientificShape(Decimal(f));
        assert false;
      }
    }
  }
}
