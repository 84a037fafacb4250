/** The millisecond stopwatch of the firmware: a sample of the hardware timer's
    counter, and the elapsed time since that sample computed with C's uint32_t
    arithmetic. The counter and its period are parameters here; the firmware
    reads them from the timer peripheral. */
module Stopwatch {

  const Modulus: int := 0x1_0000_0000

  /** C's uint32_t */
  newtype uint32 = x: int | 0 <= x < 0x1_0000_0000

  /** Unsigned subtraction as C performs it: modulo 2^32. */
  function Sub(a: uint32, b: uint32): uint32 {
    ((a as int - b as int) % Modulus) as uint32
  }

  /** Unsigned addition as C performs it: modulo 2^32. */
  function Add(a: uint32, b: uint32): uint32 {
    ((a as int + b as int) % Modulus) as uint32
  }

  /** stopwatch_start: the sample is the counter as it reads now, so no time
      has elapsed since it whatever the period. */
  function Start(current: uint32): (t: uint32)
    ensures forall period :: ElapsedMs(t, current, period) == 0
  {
    current
  }

  /** stopwatch_elapsed_ms, with the counter's current value and the timer's
      period passed in. A sample at or above the current count is the case
      without a wrap; below it, the counter has reloaded once. As long as the
      counter stays within its period, neither branch wraps around in uint32. */
  function ElapsedMs(sample: uint32, current: uint32, period: uint32): (r: uint32)
    ensures sample >= current ==> r as int == sample as int - current as int
    ensures sample == current ==> r == 0
    ensures sample < current <= period ==>
              r as int == sample as int + (period as int - current as int) && r < period
  {
    if sample >= current then Sub(sample, current)
    else Add(sample, Sub(period, current))
  }

  /** One tick of a reference count-down timer: it counts down to 0 and then
      reloads to `reload`. */
  function Next(c: uint32, reload: uint32): (n: uint32)
    ensures c > 0 ==> n as int == c as int - 1
    ensures c == 0 ==> n == reload
  {
    if c == 0 then reload else c - 1
  }

  /** The reference counter's value `k` ticks after it read `s`. */
  function After(s: uint32, k: nat, reload: uint32): (c: uint32)
    requires s <= reload
    ensures c <= reload
  {
    if k == 0 then s else Next(After(s, k - 1, reload), reload)
  }

  /** On a counter whose cycle is exactly `period` ticks (it reloads to
      period - 1), a sample taken `k` ticks ago reads back as `k` elapsed
      milliseconds, for every `k` shorter than one full period: the
      measurement is exact across the wrap. */
  lemma {:induction false} ElapsedCountsTicks(s: uint32, k: nat, period: uint32)
    requires 0 < period && s < period && k < period as int
    ensures ElapsedMs(Start(s), After(s, k, period - 1), period) as int == k
  {
    if k > 0 {
      ElapsedCountsTicks(s, k - 1, period);
    }
  }

  /** Where the reference counter stands `k` ticks after `s`, for at most one
      reload. */
  lemma {:induction false} AfterOneReload(s: uint32, k: nat, reload: uint32)
    requires s <= reload && k <= s as int + 1 + reload as int
    ensures After(s, k, reload) as int
            == if k <= s as int then s as int - k else reload as int - (k - s as int - 1)
  {
    if k > 0 {
      AfterOneReload(s, k - 1, reload);
    }
  }

  /** On a counter that reloads to `period` itself (a cycle of period + 1
      ticks), the reading is exact until the first reload and one millisecond
      short after it: the reload tick is not counted. */
  lemma ElapsedOnReloadToPeriod(s: uint32, k: nat, period: uint32)
    requires s <= period && k <= period as int
    ensures ElapsedMs(Start(s), After(s, k, period), period) as int
            == if k <= s as int then k else k - 1
  {
    AfterOneReload(s, k, period);
  }
}
