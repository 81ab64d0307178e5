/**
 * The timer callbacks the port gives mbed TLS for DTLS retransmission:
 * `mbedtls_timing_get_timer` keeps its start time (an
 * `avs_time_monotonic_t`) in the `mbedtls_timing_hr_time` it is given,
 * and `mbedtls_timing_set_delay` / `mbedtls_timing_get_delay` watch an
 * intermediate and a final delay on a `mbedtls_timing_delay_context`.
 *
 * Every reading of the clock goes through the monotonic clock of
 * CompatTime, given the raw counter reading of that moment.
 */
module MbedtlsTiming {
  import opened Types
  import opened CompatTime

  /** `mbedtls_timing_hr_time`, holding the monotonic start time in milliseconds. */
  class HrTime {
    var start: nat

    constructor ()
      ensures start == 0
    {
      start := 0;
    }

    /**
     * `mbedtls_timing_get_timer`: reads the clock; with `reset` records
     * the reading as the start and returns 0, otherwise returns the
     * milliseconds since the start as an `unsigned long`.
     */
    method GetTimer(clock: MonotonicClock, raw: u32, reset: bool) returns (r: u32)
      modifies this, clock
      ensures clock.prevMs == Lift(old(clock.prevMs), raw)
      ensures reset ==> start == clock.prevMs && r == 0
      ensures !reset ==> start == old(start) && r == Elapsed(old(start), clock.prevMs)
    {
      var offset := clock.MonotonicNow(raw);
      if reset {
        start := offset;
        return 0;
      }
      r := Elapsed(start, offset);
    }
  }

  /**
   * The `int64_t` milliseconds from `start` to `now` converted to the
   * 32-bit `unsigned long`.
   */
  function Elapsed(start: nat, now: nat): (r: u32)
    ensures start <= now < start + U32_MODULUS ==> r == now - start
    ensures (r - (now - start)) % U32_MODULUS == 0
  {
    ToU32(now - start)
  }

  /**
   * A timer restarted at the clock's last reading shows, at the next
   * reading, the true time elapsed since, as long as that is below 2^32 ms.
   */
  lemma ElapsedSinceReset(started: nat, raw: u32)
    requires Lift(started, raw) - started < U32_MODULUS
    ensures Elapsed(started, Lift(started, raw)) == Lift(started, raw) - started
  {
  }

  /**
   * The answer of `mbedtls_timing_get_delay` once `elapsed` is known:
   * -1 when no delay is set, 2 once the final delay has passed, 1 once
   * only the intermediate delay has, 0 before that.
   */
  function DelayState(intMs: u32, finMs: u32, elapsed: u32): (r: int)
    ensures r == -1 <==> finMs == 0
    ensures r == 2 <==> finMs != 0 && elapsed >= finMs
    ensures r == 1 <==> finMs != 0 && intMs <= elapsed < finMs
    ensures r == 0 <==> finMs != 0 && elapsed < intMs && elapsed < finMs
  {
    if finMs == 0 then -1
    else if elapsed >= finMs then 2
    else if elapsed >= intMs then 1
    else 0
  }

  /** With a delay set, the answer never goes back as time passes. */
  lemma DelayStateMonotone(intMs: u32, finMs: u32, e1: u32, e2: u32)
    requires finMs != 0 && e1 <= e2
    ensures DelayState(intMs, finMs, e1) <= DelayState(intMs, finMs, e2)
  {
  }

  /** `mbedtls_timing_delay_context`: the timer and the two delays. */
  class DelayContext {
    const timer: HrTime
    var intMs: u32
    var finMs: u32

    constructor ()
      ensures fresh(timer) && timer.start == 0 && intMs == 0 && finMs == 0
    {
      timer := new HrTime();
      intMs := 0;
      finMs := 0;
    }

    /**
     * `mbedtls_timing_set_delay`: stores both delays; a nonzero final
     * delay restarts the timer, a zero one cancels the delay and leaves
     * the timer and the clock alone.
     */
    method SetDelay(clock: MonotonicClock, raw: u32, intMs: u32, finMs: u32)
      modifies this, timer, clock
      ensures this.intMs == intMs && this.finMs == finMs
      ensures finMs != 0 ==> clock.prevMs == Lift(old(clock.prevMs), raw) && timer.start == clock.prevMs
      ensures finMs == 0 ==> clock.prevMs == old(clock.prevMs) && timer.start == old(timer.start)
    {
      this.intMs := intMs;
      this.finMs := finMs;
      if finMs != 0 {
        var _ := timer.GetTimer(clock, raw, true);
      }
    }

    /**
     * `mbedtls_timing_get_delay`: -1 without reading the clock when no
     * delay is set, otherwise the delay state for the time elapsed since
     * the timer was started.
     */
    method GetDelay(clock: MonotonicClock, raw: u32) returns (r: int)
      modifies timer, clock
      ensures timer.start == old(timer.start)
      ensures finMs == 0 ==> r == -1 && clock.prevMs == old(clock.prevMs)
      ensures finMs != 0 ==> clock.prevMs == Lift(old(clock.prevMs), raw)
      ensures finMs != 0 ==> r == DelayState(intMs, finMs, Elapsed(timer.start, clock.prevMs))
    {
      if finMs == 0 {
        return -1;
      }
      var elapsed := timer.GetTimer(clock, raw, false);
      if elapsed >= finMs {
        return 2;
      }
      if elapsed >= intMs {
        return 1;
      }
      return 0;
    }
  }
}
