/** Machine words and the wrapping millisecond clock shared by the firmware models. */
module Words {

  const U8_MOD := 0x100
  const U32_MOD := 0x1_0000_0000

  datatype Option<+T> = None | Some(value: T)

  /** What `millis()` returns at real time `t`: the low 32 bits of the uptime. */
  function Millis(t: nat): nat {
    t % U32_MOD
  }

  /** The firmware's `(uint32_t)(now - since)`: subtraction with 32-bit wrap-around. */
  function Elapsed(now: nat, since: nat): nat {
    (now - since) % U32_MOD
  }

  /** A wrapped difference never overstates the time that really passed, however often
      the counter rolled over; it is exact while less than one full period passed. */
  lemma ElapsedIsSafe(t0: nat, t1: nat)
    requires t0 <= t1
    ensures Elapsed(Millis(t1), Millis(t0)) <= t1 - t0
    ensures t1 - t0 < U32_MOD ==> Elapsed(Millis(t1), Millis(t0)) == t1 - t0
  {
    var q0, q1 := t0 / U32_MOD, t1 / U32_MOD;
    assert Millis(t1) - Millis(t0) == (t1 - t0) - U32_MOD * (q1 - q0);
    ModShift(t1 - t0, q1 - q0);
  }

  lemma ModShift(x: nat, k: int)
    ensures (x - U32_MOD * k) % U32_MOD == x % U32_MOD
  {
  }

  lemma FitsInWord(x: nat)
    requires x < U32_MOD
    ensures x % U32_MOD == x
  {
  }

  // ---------------------------------------------------------------- division by a variable

  lemma CancelLess(a: int, b: int, d: nat)
    requires a * d < b * d
    ensures a < b
  {
    assert (b - a) * d > 0;
  }

  lemma QuotientAtLeast(k: nat, y: nat, d: nat)
    requires 0 < d && k * d <= y
    ensures k <= y / d
  {
    assert y == y / d * d + y % d;
    assert (y / d + 1) * d == y / d * d + d;
    CancelLess(k, y / d + 1, d);
  }

  lemma DivMonotone(x: nat, y: nat, d: nat)
    requires x <= y && 0 < d
    ensures x / d <= y / d
  {
    assert x / d * d <= x;
    QuotientAtLeast(x / d, y, d);
  }

  lemma WholeQuotient(k: nat, d: nat)
    requires 0 < d
    ensures d * k / d == k
  {
    QuotientAtLeast(k, d * k, d);
    assert d * k / d * d <= d * k < (k + 1) * d;
    CancelLess(d * k / d, k + 1, d);
  }
}
