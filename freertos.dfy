/**
 * Kernel-level constants and integer types shared by the wrapper classes.
 * The kernel itself is not modelled: only the values its API exchanges
 * with the wrappers.
 */
module FreeRtos {

  /** TickType_t is a 32-bit unsigned integer (configUSE_16_BIT_TICKS == 0). */
  const TickModulus: int := 0x1_0000_0000
  type Tick = x: int | 0 <= x < TickModulus

  /** UBaseType_t, used for semaphore counts, is 32-bit unsigned as well. */
  type UBase = x: int | 0 <= x < 0x1_0000_0000

  /** portMAX_DELAY: the timeout meaning "wait forever". */
  const PortMaxDelay: Tick := TickModulus - 1

  /** BaseType_t return codes. */
  const PdFalse: int := 0
  const PdTrue: int := 1
  const PdPass: int := PdTrue

  /** Unsigned 32-bit multiplication as C performs it on TickType_t. */
  function TickMul(a: Tick, b: Tick): (r: Tick)
    ensures a * b < TickModulus ==> r == a * b
    ensures r <= a * b
    ensures (a * b - r) % TickModulus == 0
  {
    var p: nat := a * b;
    ModBounds(p, TickModulus);
    ModDifference(p, TickModulus);
    p % TickModulus
  }

  /** Unsigned 32-bit addition as C performs it on TickType_t. */
  function TickAdd(a: Tick, b: Tick): (r: Tick)
    ensures a + b < TickModulus ==> r == a + b
    ensures a + b >= TickModulus ==> r == a + b - TickModulus
  {
    (a + b) % TickModulus
  }

  lemma ModBounds(p: nat, m: int)
    requires m > 0
    ensures 0 <= p % m < m && p % m <= p
    ensures p < m ==> p % m == p
  {
  }

  /** A value and its remainder differ by a multiple of the modulus. */
  lemma ModDifference(p: nat, m: int)
    requires m > 0
    ensures (p - p % m) % m == 0
  {
    assert p == (p / m) * m + p % m;
    ModUnique(p - p % m, p / m, 0, m);
  }

  /** Euclidean division is unique: a remainder in [0, m) is the remainder. */
  lemma ModUnique(y: int, k: int, r: int, m: int)
    requires m > 0 && 0 <= r < m && y == k * m + r
    ensures y % m == r
  {
    var q := y / m;
    assert y == q * m + y % m;
    assert (k - q) * m == y % m - r;
    MulAwayFromZero(k - q, m);
  }

  /** A non-zero multiple of m is at least m away from zero. */
  lemma MulAwayFromZero(c: int, m: int)
    requires m > 0
    ensures c >= 1 ==> c * m >= m
    ensures c <= -1 ==> c * m <= -m
  {
    assert c * m == (c - 1) * m + m;
    assert c * m == (c + 1) * m - m;
  }
}
