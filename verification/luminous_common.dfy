/*
 * Common definitions of the luminous control: the on/off flag values and the
 * saturating ("clip") increment used by the tick counter.
 */
module LuminousCommon {

  /** Largest value of a C `uint32_t`. */
  const UINT32_MAX: int := 0xFFFF_FFFF

  /** Largest value of a C `uint8_t`. */
  const UINT8_MAX: int := 0xFF

  type Uint32 = x: int | 0 <= x <= UINT32_MAX
  type Uint8 = x: int | 0 <= x <= UINT8_MAX

  /** Flag value "on". */
  const Y_ON: Uint8 := 1
  /** Flag value "off". */
  const Y_OFF: Uint8 := 0

  /** Reduction modulo 2^32: what C's unsigned 32-bit arithmetic does to a result. */
  function Wrap32(x: int): (r: Uint32)
    ensures 0 <= x <= UINT32_MAX ==> r == x
  {
    x % (UINT32_MAX + 1)
  }

  /**
   * The clip increment on unbounded integers: add one unless the value has
   * already reached (or passed) the cap.
   */
  function ClipInc(value: int, max: int): (r: int)
    // it never decreases the value and moves it by at most one
    ensures value <= r <= value + 1
    // it moves exactly when the value is below the cap
    ensures r == value + 1 <==> value < max
    // a value at or under the cap stays at or under the cap
    ensures value <= max ==> r <= max
  {
    if value < max then value + 1 else value
  }

  /**
   * The clip increment as C evaluates it on `uint32_t` operands, where the
   * addition `value + 1` wraps modulo 2^32. The guard keeps the wrap from ever
   * happening: the result is the unbounded clip increment.
   */
  function ClipInc32(value: Uint32, max: Uint32): (r: Uint32)
    ensures r == ClipInc(value, max)
  {
    if value < max then Wrap32(value + 1) else value
  }

  /** Once the cap is reached, further clip increments change nothing. */
  lemma {:induction false} ClipIncSaturated(value: int, max: int)
    requires value >= max
    ensures ClipInc(value, max) == value
    ensures ClipInc(ClipInc(value, max), max) == ClipInc(value, max)
  {
  }

  /** Repeating the clip increment `n` times, as successive ticks do. */
  function ClipIncN(value: int, max: int, n: nat): int
  {
    if n == 0 then value else ClipInc(ClipIncN(value, max, n - 1), max)
  }

  /**
   * `n` clip increments from a value at or under the cap reach the smaller of
   * `value + n` and the cap: the counter counts up and then stays at the cap,
   * it never wraps around.
   */
  lemma {:induction false} ClipIncNSaturates(value: int, max: int, n: nat)
    requires value <= max
    ensures ClipIncN(value, max, n) == if value + n <= max then value + n else max
  {
    if n > 0 {
      ClipIncNSaturates(value, max, n - 1);
    }
  }

  /** The flag value that encodes a boolean condition. */
  function FlagOf(b: bool): (flag: Uint8)
    ensures flag == Y_ON || flag == Y_OFF
    ensures flag == Y_ON <==> b
    ensures flag == Y_OFF <==> !b
  {
    if b then Y_ON else Y_OFF
  }
}
