/**
 * The FreeRTOS port of the avs_commons clock: `avs_time_monotonic_now`
 * lifts the wrapping 32-bit millisecond counter of lwIP's `sys_now()`
 * into a non-decreasing 64-bit value, remembering the last value handed
 * out in the static `prev_ms`; `avs_time_real_now` is the same reading.
 *
 * The counter reading is a parameter. The correction step is written
 * `portMAX_DELAY + 1`; with the 32-bit `TickType_t` of the RP2040 port
 * that sum is computed in 32-bit unsigned arithmetic and is 0 (see
 * `StepAsWritten`). The clock below uses the step the loop evidently
 * intends, one full period of the counter, 2^32.
 */
module CompatTime {
  import opened Types

  /** `portMAX_DELAY` for a 32-bit `TickType_t`. */
  const PORT_MAX_DELAY: u32 := 0xFFFF_FFFF

  /** One period of the 32-bit counter: the correction step the loop intends. */
  const WRAP_STEP: nat := U32_MODULUS

  /** `portMAX_DELAY + 1` as the C expression evaluates it, in 32-bit unsigned arithmetic. */
  function StepAsWritten(): u32
  {
    ToU32(PORT_MAX_DELAY as int + 1)
  }

  /** The as-written step is 0: adding it never changes `ms`. */
  lemma StepAsWrittenIsZero()
    ensures StepAsWritten() == 0
  {
  }

  /**
   * With the as-written step, once the counter has wrapped below
   * `prev_ms` the loop guard holds after any number of iterations: the
   * loop never ends. This happens on the first call after `sys_now()`
   * wraps, some 49.7 days after boot.
   */
  lemma {:induction false} AsWrittenLoopNeverEnds(prevMs: nat, raw: u32, k: nat)
    requires raw < prevMs
    ensures raw + k * StepAsWritten() < prevMs
    decreases k
  {
    StepAsWrittenIsZero();
    if k > 0 {
      AsWrittenLoopNeverEnds(prevMs, raw, k - 1);
    }
  }

  /**
   * The value the correction loop reaches from the raw reading `raw`
   * when the last value handed out was `prevMs`: `raw` itself if it is
   * not behind, otherwise the first `raw + k * 2^32` that is not.
   */
  function Lift(prevMs: nat, raw: u32): (ms: nat)
    ensures ms >= raw && ms >= prevMs
    ensures (ms - raw) % WRAP_STEP == 0
    ensures raw >= prevMs ==> ms == raw
    // the smallest such value: one step less would still be behind
    ensures raw < prevMs ==> ms - WRAP_STEP < prevMs
  {
    if raw >= prevMs then raw
    else raw + ((prevMs - raw + WRAP_STEP - 1) / WRAP_STEP) * WRAP_STEP
  }

  /** Successive readings never go back, whatever the counter says. */
  lemma LiftNonDecreasing(prevMs: nat, raw1: u32, raw2: u32)
    ensures Lift(Lift(prevMs, raw1), raw2) >= Lift(prevMs, raw1) >= prevMs
  {
  }

  /**
   * While the counter has not wrapped since the last reading, the lifted
   * values advance exactly as the counter does.
   */
  lemma LiftTracksCounter(prevMs: nat, raw1: u32, raw2: u32)
    requires raw1 <= raw2
    requires Lift(prevMs, raw1) == raw1
    ensures Lift(Lift(prevMs, raw1), raw2) - Lift(prevMs, raw1) == raw2 - raw1
  {
  }

  /**
   * A wrap of the counter between two readings is absorbed: the new
   * value is one period further on, less the ground the counter lost.
   */
  lemma LiftAcrossWrap(raw1: u32, raw2: u32)
    requires raw2 < raw1
    ensures Lift(raw1, raw2) == raw2 + WRAP_STEP
  {
  }

  /** The static `prev_ms` of `avs_time_monotonic_now`. */
  class MonotonicClock {
    var prevMs: nat

    /** `static uint64_t prev_ms = 0`. */
    constructor ()
      ensures prevMs == 0
    {
      prevMs := 0;
    }

    /**
     * `avs_time_monotonic_now` given the counter reading `raw`: adds
     * periods until the value is not behind `prev_ms`, records it and
     * returns it.
     */
    method MonotonicNow(raw: u32) returns (ms: nat)
      modifies this
      ensures ms == Lift(old(prevMs), raw)
      ensures prevMs == ms
    {
      ms := raw;
      while ms < prevMs
        invariant raw <= ms <= Lift(prevMs, raw)
        invariant (Lift(prevMs, raw) - ms) % WRAP_STEP == 0
        decreases prevMs - ms
      {
        ms := ms + WRAP_STEP;
      }
      prevMs := ms;
    }

    /** `avs_time_real_now`: the monotonic reading, taken as real time. */
    method RealNow(raw: u32) returns (ms: nat)
      modifies this
      ensures ms == Lift(old(prevMs), raw)
      ensures prevMs == ms
    {
      ms := MonotonicNow(raw);
    }
  }
}
