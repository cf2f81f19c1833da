/** The agent's reconnect delays, in the int64 nanoseconds of a Go Duration. */
module Backoff {

  const TWO62 := 0x4000_0000_0000_0000
  const TWO63 := 0x8000_0000_0000_0000
  const TWO64 := 0x1_0000_0000_0000_0000

  /** Two's-complement wrap-around. */
  function Wrap(x: int): int {
    (x + TWO63) % TWO64 - TWO63
  }

  /** Go's integer division truncates toward zero. */
  function TruncDiv(a: int, b: int): int
    requires b > 0
  {
    if a >= 0 then a / b else -(-a / b)
  }

  function Doubled(d: int, max: int): int {
    var twice := Wrap(2 * d);
    if twice > max then max else twice
  }

  /** The argument of the random draw in jitter, which must be positive. */
  function DrawBound(d: int): int {
    2 * TruncDiv(d, 4) + 1
  }

  function Jitter(d: int, draw: int): int {
    d - TruncDiv(d, 4) + draw
  }

  /** The k-th delay of the loop. */
  function Delay(init: int, max: int, k: nat): int {
    if k == 0 then init else Doubled(Delay(init, max, k - 1), max)
  }

  /**
   The reconnect loop for the given number of failed connections. waits are the
   jittered sleeps; draws[k] is what the random source returns in round k.
   */
  method Run(init: int, max: int, draws: seq<int>) returns (waits: seq<int>)
    ensures |waits| == |draws|
    ensures forall k :: 0 <= k < |draws| ==> waits[k] == Jitter(Delay(init, max, k), draws[k])
  {
    waits := [];
    var backoff := init;
    for k := 0 to |draws|
      invariant |waits| == k && backoff == Delay(init, max, k)
      invariant forall j :: 0 <= j < k ==> waits[j] == Jitter(Delay(init, max, j), draws[j])
    {
      waits := waits + [Jitter(backoff, draws[k])];
      backoff := Wrap(2 * backoff);
      if backoff > max { backoff := max; }
    }
  }

  // --- The intended delays ---

  function Pow2(k: nat): nat {
    if k == 0 then 1 else 2 * Pow2(k - 1)
  }

  /** init, then init * 2^k capped at max. */
  function Capped(init: nat, max: nat, k: nat): nat {
    if k == 0 then init else if init * Pow2(k) <= max then init * Pow2(k) else max
  }

  lemma CappedNext(init: nat, max: nat, k: nat)
    ensures Capped(init, max, k + 1) == if 2 * Capped(init, max, k) > max then max else 2 * Capped(init, max, k)
  {
    assert init * Pow2(k + 1) == 2 * (init * Pow2(k));
  }

  predicate Bounded(init: nat, max: nat) {
    init == 0 || (init < TWO62 && max < TWO62)
  }

  lemma WrapSmall(x: int)
    requires -TWO63 <= x < TWO63
    ensures Wrap(x) == x
  {
  }

  lemma {:induction false} CappedIsSmall(init: nat, max: nat, k: nat)
    requires Bounded(init, max)
    ensures Capped(init, max, k) < TWO62
  {
    if init == 0 { ZeroStays(max, k); }
  }

  lemma {:induction false} DelayIsCapped(init: nat, max: nat, k: nat)
    requires Bounded(init, max)
    ensures Delay(init, max, k) == Capped(init, max, k)
  {
    hide Wrap, Pow2;
    if k > 0 {
      DelayIsCapped(init, max, k - 1);
      CappedIsSmall(init, max, k - 1);
      WrapSmall(2 * Capped(init, max, k - 1));
      CappedNext(init, max, k - 1);
    }
  }

  lemma ZeroStays(max: nat, k: nat)
    ensures Capped(0, max, k) == 0
  {
    assert 0 * Pow2(k) == 0;
  }

  lemma DoublingOverflows(d: int, max: nat)
    requires TWO62 <= d < TWO63
    ensures Doubled(d, max) < 0
  {
    assert 2 * d + TWO63 - TWO64 == (2 * d + TWO63) % TWO64;
  }

  lemma {:induction false} Pow2Exceeds(k: nat)
    ensures Pow2(k) > k
  {
    if k > 0 { Pow2Exceeds(k - 1); }
  }

  lemma TimesAtLeastOne(a: nat, b: nat)
    requires a > 0
    ensures a * b >= b
  {
    assert a * b - b == (a - 1) * b;
  }

  lemma CapReached(init: nat, max: nat, k: nat)
    requires init > 0 && max >= TWO62 && k >= TWO62
    ensures Capped(init, max, k) >= TWO62
  {
    hide Pow2;
    Pow2Exceeds(k);
    TimesAtLeastOne(init, Pow2(k));
  }

  /**
   The delays are init and then min(init * 2^k, max) for ever exactly when
   doubling cannot overflow: a zero start, or start and cap both below 2^62. A
   cap of 2^62 nanoseconds or more lets the delay wrap around to a negative one.
   */
  lemma DelaysAsIntendedWhen(init: nat, max: nat)
    requires init < TWO63 && max < TWO63
    ensures (forall k: nat :: Delay(init, max, k) == Capped(init, max, k)) <==> Bounded(init, max)
  {
    if Bounded(init, max) {
      forall k: nat
        ensures Delay(init, max, k) == Capped(init, max, k)
      {
        DelayIsCapped(init, max, k);
      }
    } else if init >= TWO62 {
      DoublingOverflows(init, max);
      assert Delay(init, max, 1) == Doubled(Delay(init, max, 0), max);
    } else {
      var k: nat :| k >= TWO62;
      CapReached(init, max, k);
      if Delay(init, max, k) == Capped(init, max, k) {
        DoublingOverflows(Delay(init, max, k), max);
        assert Delay(init, max, k + 1) < 0;
      }
    }
  }

  /** The random draw has a positive range exactly for delays above -4. */
  lemma DrawIsPossibleWhen(d: int)
    ensures DrawBound(d) > 0 <==> d > -4
  {
  }

  /** With bounded parameters every draw is possible and every wait is within a quarter of its delay. */
  lemma WaitsStayNear(init: nat, max: nat, k: nat)
    requires Bounded(init, max)
    ensures var d := Delay(init, max, k);
            && 0 < DrawBound(d) < TWO63
            && forall draw :: 0 <= draw < DrawBound(d) ==>
                 && d - d / 4 <= Jitter(d, draw) <= d + d / 4
                 && 0 <= Jitter(d, draw) < TWO63
  {
    hide Delay, Capped;
    DelayIsCapped(init, max, k);
    CappedIsSmall(init, max, k);
    DrawIsPossibleWhen(Delay(init, max, k));
  }

  /** Every wait within a quarter of the delay, to the nanosecond, comes from exactly one draw. */
  lemma WaitsAreUniform(d: nat, wait: int)
    ensures d - d / 4 <= wait <= d + d / 4 <==> exists draw :: 0 <= draw < DrawBound(d) && Jitter(d, draw) == wait
    ensures forall a, b :: Jitter(d, a) == Jitter(d, b) ==> a == b
  {
    assert Jitter(d, wait - (d - d / 4)) == wait;
  }

  /** A delay that is not the intended one comes after one that doubling overflows. */
  lemma {:induction false} OverflowCameFirst(init: nat, max: nat, k: nat)
    requires init < TWO63 && max < TWO63 && Delay(init, max, k) != Capped(init, max, k)
    ensures exists j: nat :: j < k && TWO62 <= Delay(init, max, j) < TWO63
  {
    hide Wrap, Pow2;
    if k > 0 {
      if Delay(init, max, k - 1) != Capped(init, max, k - 1) {
        OverflowCameFirst(init, max, k - 1);
      } else {
        CappedNext(init, max, k - 1);
        if Capped(init, max, k - 1) < TWO62 { WrapSmall(2 * Capped(init, max, k - 1)); }
        CappedWithin(init, max, k - 1);
      }
    }
  }

  lemma CappedWithin(init: nat, max: nat, k: nat)
    requires init < TWO63 && max < TWO63
    ensures 0 <= Capped(init, max, k) < TWO63
  {
  }

  /** An overflowing delay leaves the draw without a range in the next round or, at the very top, the one after. */
  lemma OverflowLeavesNoDraw(d: int, max: nat)
    requires TWO62 <= d < TWO63
    ensures DrawBound(Doubled(d, max)) <= 0 || DrawBound(Doubled(Doubled(d, max), max)) <= 0
  {
    DoublingOverflows(d, max);
    assert Doubled(d, max) == 2 * d - TWO64;
    DrawIsPossibleWhen(Doubled(d, max));
    if d == TWO63 - 1 {
      WrapSmall(-4);
      assert Doubled(Doubled(d, max), max) == -4;
      DrawIsPossibleWhen(-4);
    }
  }

  /**
   The random draw has a range in every round, so the loop never panics, exactly
   when doubling cannot overflow.
   */
  lemma DrawsArePossibleWhen(init: nat, max: nat)
    requires init < TWO63 && max < TWO63
    ensures (forall k: nat :: DrawBound(Delay(init, max, k)) > 0) <==> Bounded(init, max)
  {
    if Bounded(init, max) {
      forall k: nat
        ensures DrawBound(Delay(init, max, k)) > 0
      {
        WaitsStayNear(init, max, k);
      }
    } else {
      DelaysAsIntendedWhen(init, max);
      var k: nat :| Delay(init, max, k) != Capped(init, max, k);
      OverflowCameFirst(init, max, k);
      var j: nat :| j < k && TWO62 <= Delay(init, max, j) < TWO63;
      OverflowLeavesNoDraw(Delay(init, max, j), max);
      assert Delay(init, max, j + 1) == Doubled(Delay(init, max, j), max);
      assert Delay(init, max, j + 2) == Doubled(Delay(init, max, j + 1), max);
    }
  }
}
