/**
 Sending an email with retries: the capped exponential backoff in wrapping 64-bit arithmetic, and the retry loop.
 */
module Backoff {

  const BASE: int := 200_000_000
  const CAP: int := 2_000_000_000
  const TWO_64: int := 0x1_0000_0000_0000_0000
  const TWO_63: int := 0x8000_0000_0000_0000

  function Pow2(n: nat): nat {
    if n == 0 then 1 else 2 * Pow2(n - 1)
  }

  function Signed(x: int): int {
    var r := x % TWO_64;
    if r >= TWO_63 then r - TWO_64 else r
  }

  /** Go's `x << n` on int64: bits above the width are dropped, and a shift by 64 or more gives zero. */
  function ShiftLeft(x: int, n: nat): int {
    if n >= 64 then 0 else Signed(x * Pow2(n))
  }

  /** The upper end of the jitter after the failed attempt n. */
  function Delay(n: nat): int {
    var delay := ShiftLeft(BASE, n);
    if delay > CAP || delay <= 0 then CAP else delay
  }

  function Min(a: int, b: int): int {
    if a <= b then a else b
  }

  lemma {:induction false} Pow2Positive(n: nat)
    ensures Pow2(n) >= 1
  {
    if n > 0 {
      Pow2Positive(n - 1);
    }
  }

  lemma {:induction false} From4(n: nat)
    requires n >= 4
    ensures Pow2(n) == 16 * Pow2(n - 4) && Pow2(n) >= 16
  {
    Pow2Positive(n - 4);
    if n > 4 {
      From4(n - 1);
    } else {
      assert Pow2(1) == 2 && Pow2(2) == 4 && Pow2(3) == 8;
    }
  }

  lemma {:induction false} From36(n: nat)
    requires n >= 36
    ensures Pow2(n) == 68_719_476_736 * Pow2(n - 36)
  {
    if n > 36 {
      From36(n - 1);
    } else {
      From4(36); From4(32); From4(28); From4(24); From4(20); From4(16); From4(12); From4(8); From4(4);
    }
  }

  lemma {:induction false} Before36(n: nat)
    requires n <= 35
    ensures Pow2(n) <= 34_359_738_368
    decreases 35 - n
  {
    if n < 35 {
      Before36(n + 1);
    } else {
      From36(36);
    }
  }

  /** A multiple of 2^45 is still one after wrapping. */
  lemma MultiplesWrap(q: int)
    ensures (35_184_372_088_832 * q) % TWO_64 == 35_184_372_088_832 * (q % 524_288)
  {
    var a, b := q / 524_288, q % 524_288;
    assert 35_184_372_088_832 * q == 0x1_0000_0000_0000_0000 * a + 35_184_372_088_832 * b;
  }

  /** From 36 on, the exact product is a multiple of 2^45, and so is what is left of it after wrapping. */
  lemma WrappedIsCoarse(n: nat)
    requires n >= 36
    ensures Signed(BASE * Pow2(n)) <= 0 || Signed(BASE * Pow2(n)) >= 35_184_372_088_832
  {
    From36(n);
    var q := 390_625 * Pow2(n - 36);
    assert BASE * Pow2(n) == 35_184_372_088_832 * q;
    MultiplesWrap(q);
  }

  /** From 4 to 35 nothing wraps. */
  lemma NoWrap(n: nat)
    requires 4 <= n < 36
    ensures Signed(BASE * Pow2(n)) == BASE * Pow2(n) && BASE * Pow2(n) > CAP
  {
    From4(n);
    Before36(n);
    SmallStays(BASE * Pow2(n));
  }

  lemma SmallStays(x: int)
    requires 0 <= x < TWO_63
    ensures Signed(x) == x
  {
  }

  /** For every attempt number the delay is min(200 ms x 2^n, 2 s), although the shift wraps: a wrapped shift is
      zero, negative or far above the cap. */
  lemma DelayIsCappedExponential(n: nat)
    ensures Delay(n) == Min(200_000_000 * Pow2(n), 2_000_000_000)
  {
    if n < 4 {
      assert Pow2(0) == 1 && Pow2(1) == 2 && Pow2(2) == 4 && Pow2(3) == 8;
    } else if n < 36 {
      NoWrap(n);
    } else {
      WrappedIsCoarse(n);
      From4(n);
    }
  }

  // ---------------------------------------------------------------- the retry loop

  datatype Outcome = Sent | Temporary | Permanent | Cancelled

  /** All delays before attempt n. */
  function Total(n: nat): int {
    if n == 0 then 0 else Total(n - 1) + Min(BASE * Pow2(n - 1), CAP)
  }

  /** What the world does: the result of send i, whether the context is cancelled right after it, the wait that the
      jitter picks after it, and whether the context is cancelled during that wait. */
  datatype World = World(send: nat -> Outcome, cancelled: nat -> bool, wait: nat -> int, broken: nat -> bool)

  ghost predicate Fair(w: World) {
    forall i: nat :: 0 <= w.wait(i) <= Delay(i) && !w.send(i).Cancelled?
  }

  method SendWithRetry(w: World, attempts: int) returns (result: Outcome, sends: nat, waited: int)
    requires Fair(w)
    ensures 1 <= sends <= (if attempts < 1 then 1 else attempts)
    ensures forall i: nat :: i < sends - 1 ==> w.send(i).Temporary? && !w.cancelled(i) && !w.broken(i)
    ensures !result.Cancelled? ==> result == w.send(sends - 1)
    ensures result.Temporary? ==> sends == if attempts < 1 then 1 else attempts
    ensures result.Cancelled? ==> w.send(sends - 1).Temporary? && (w.cancelled(sends - 1) || w.broken(sends - 1))
    ensures 0 <= waited <= Total(if result.Cancelled? then sends else sends - 1)
  {
    var limit: nat := if attempts < 1 then 1 else attempts;
    sends, waited, result := 0, 0, Temporary;
    while sends < limit
      invariant 0 <= sends < limit
      invariant forall i: nat :: i < sends ==> w.send(i).Temporary? && !w.cancelled(i) && !w.broken(i)
      invariant 0 <= waited <= Total(sends)
      decreases limit - sends
    {
      var attempt := sends;
      result := w.send(attempt);
      sends := sends + 1;
      DelayIsCappedExponential(attempt);
      if !result.Temporary? {
        return;
      }
      if w.cancelled(attempt) {
        result := Cancelled;
        return;
      }
      if attempt == limit - 1 {
        return;
      }
      waited := waited + w.wait(attempt);
      if w.broken(attempt) {
        result := Cancelled;
        return;
      }
    }
  }

  /** In closed form: 200, 600 and 1400 ms after one, two and three failures, then 3 s and 2 s more for each. */
  lemma {:induction false} TotalDelay(n: nat)
    ensures Total(0) == 0 && Total(1) == 200_000_000 && Total(2) == 600_000_000 && Total(3) == 1_400_000_000
    ensures n >= 4 ==> Total(n) == 3_000_000_000 + (n - 4) * 2_000_000_000
  {
    assert Pow2(0) == 1 && Pow2(1) == 2 && Pow2(2) == 4 && Pow2(3) == 8;
    if n > 4 {
      TotalDelay(n - 1);
      From4(n - 1);
    }
  }

  /** The three attempts that all callers make wait at most 600 ms. */
  lemma ThreeAttempts()
    ensures Total(2) == 600_000_000
  {
  }
}
