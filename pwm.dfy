/**
 * The duty-cycle conversion both firmwares perform before writing the LEDC
 * channel: a percentage scaled to the 10-bit timer resolution, capped at
 * the largest 10-bit value.
 */
module Pwm {
  import opened Numerals

  /** Duty resolution of the LEDC timer. */
  const LEDC_RES_BITS: nat := 10

  /** (1 << 10) - 1. */
  const LEDC_MAX_DUTY: nat := 1023

  /** percent * (LEDC_MAX_DUTY + 1) / 100 in 32-bit arithmetic, then capped. */
  function DutyToLedc(percent: U8): (d: nat)
    ensures d <= LEDC_MAX_DUTY
    ensures percent >= 100 <==> d == LEDC_MAX_DUTY
  {
    var raw := percent * (LEDC_MAX_DUTY + 1) / 100;
    if raw > LEDC_MAX_DUTY then LEDC_MAX_DUTY else raw
  }

  /** The 32-bit product cannot wrap: a uint8_t times 1024 stays far below 2^32. */
  lemma ProductFits(percent: U8)
    ensures percent * (LEDC_MAX_DUTY + 1) < 0x1_0000_0000
  {
  }

  /**
   * Below 100 % the cap never applies and the result is the largest d with
   * d * 100 <= percent * 1024, so it is within one step of the exact ratio.
   */
  lemma DutyBelowFull(percent: U8)
    requires percent < 100
    ensures DutyToLedc(percent) * 100 <= percent * 1024 < (DutyToLedc(percent) + 1) * 100
  {
  }

  /** A larger percentage never gives a smaller hardware duty. */
  lemma DutyMonotone(p: U8, q: U8)
    requires p <= q
    ensures DutyToLedc(p) <= DutyToLedc(q)
  {
  }

  /** 0 % switches the output off, 50 % is half of the 10-bit range, 100 % is full scale. */
  lemma DutyPoints()
    ensures DutyToLedc(0) == 0 && DutyToLedc(50) == 512 && DutyToLedc(100) == LEDC_MAX_DUTY
  {
  }
}
