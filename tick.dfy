/**
 * Tick/millisecond conversions of the `Ticks` class. All arithmetic is on
 * TickType_t, so products wrap modulo 2^32 and quotients round down.
 * portTICK_PERIOD_MS is a build-time constant; it is passed here as the
 * parameter `period`, which the division needs to be non-zero.
 */
module Tick {
  import opened FreeRtos

  /** Ticks::TicksToMs: ticks * portTICK_PERIOD_MS, wrapping. */
  function TicksToMs(ticks: Tick, period: Tick): (ms: Tick)
    ensures ticks * period < TickModulus ==> ms == ticks * period
    ensures ticks * period >= TickModulus ==> ms < ticks * period
    ensures (ticks * period - ms) % TickModulus == 0
  {
    TickMul(ticks, period)
  }

  /** Ticks::MsToTicks: milliseconds / portTICK_PERIOD_MS, rounded down. */
  function MsToTicks(milliseconds: Tick, period: Tick): (ticks: Tick)
    requires period > 0
    ensures ticks * period <= milliseconds < (ticks + 1) * period
  {
    milliseconds / period
  }

  /** Ticks::SecondsToTicks: (seconds * 1000) / portTICK_PERIOD_MS, with the product wrapping. */
  function SecondsToTicks(seconds: Tick, period: Tick): (ticks: Tick)
    requires period > 0
    ensures ticks == MsToTicks(TickMul(seconds, 1000), period)
  {
    TickMul(seconds, 1000) / period
  }

  /** Converting ticks to milliseconds and back is the identity while the product does not wrap. */
  lemma MsToTicksOfTicksToMs(ticks: Tick, period: Tick)
    requires period > 0
    requires ticks * period < TickModulus
    ensures MsToTicks(TicksToMs(ticks, period), period) == ticks
  {
    var q := MsToTicks(ticks * period, period);
    assert q * period <= ticks * period < (q + 1) * period;
    MulMonotone(q, ticks, period);
    MulMonotone(ticks, q + 1, period);
  }

  /** Once the product wraps, the round trip loses ticks: it lands strictly below the input. */
  lemma TicksToMsWrapLosesTicks(ticks: Tick, period: Tick)
    requires period > 0
    requires ticks * period >= TickModulus
    ensures MsToTicks(TicksToMs(ticks, period), period) < ticks
  {
    var q := MsToTicks(TicksToMs(ticks, period), period);
    assert q * period <= TicksToMs(ticks, period) < TickModulus <= ticks * period;
    MulMonotone(ticks, q, period);
  }

  /** MsToTicks never decreases as the number of milliseconds grows. */
  lemma MsToTicksMonotone(a: Tick, b: Tick, period: Tick)
    requires period > 0
    requires a <= b
    ensures MsToTicks(a, period) <= MsToTicks(b, period)
  {
    var qa, qb := MsToTicks(a, period), MsToTicks(b, period);
    assert qa * period <= a <= b < (qb + 1) * period;
    MulMonotone(qb + 1, qa, period);
  }

  /** Whole seconds convert exactly when 1000 is a multiple of the period and nothing wraps. */
  lemma SecondsToTicksExact(seconds: Tick, period: Tick, perSecond: nat)
    requires period > 0
    requires perSecond * period == 1000
    requires seconds * 1000 < TickModulus
    ensures SecondsToTicks(seconds, period) == seconds * perSecond
  {
    var q := SecondsToTicks(seconds, period);
    assert seconds * 1000 == (seconds * perSecond) * period by {
      MulAssoc(seconds, perSecond, period);
    }
    assert q * period <= (seconds * perSecond) * period < (q + 1) * period;
    MulMonotone(q, seconds * perSecond, period);
    MulMonotone(seconds * perSecond, q + 1, period);
  }

  /** Multiplying by a positive factor preserves and reflects order. */
  lemma MulMonotone(a: int, b: int, k: int)
    requires k > 0
    ensures a <= b <==> a * k <= b * k
  {
    assert a * k - b * k == (a - b) * k;
    if a > b {
      assert (a - b) * k > 0;
    } else {
      assert (b - a) * k >= 0;
    }
  }

  lemma MulAssoc(a: int, b: int, c: int)
    ensures (a * b) * c == a * (b * c)
  {
  }
}
