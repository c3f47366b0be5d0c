/** The two host-automatable parameters of the delay and their ranges, as the
    processor declares them: delay time in seconds and delay (feedback) gain. */
module DelayParams {

  const MIN_DELAY_TIME: real := 0.0
  const MAX_DELAY_TIME: real := 2.0
  const DEFAULT_DELAY_TIME: real := 0.15

  const MIN_DELAY_GAIN: real := 0.0
  const MAX_DELAY_GAIN: real := 1.0
  const DEFAULT_DELAY_GAIN: real := 0.8

  /** The fixed gain the write phase applies to the part of a block that wraps
      to the start of the ring, whatever the delay gain is. */
  const WRAP_GAIN: real := 0.8

  predicate DelayTimeInRange(t: real) {
    MIN_DELAY_TIME <= t <= MAX_DELAY_TIME
  }

  predicate DelayGainInRange(g: real) {
    MIN_DELAY_GAIN <= g <= MAX_DELAY_GAIN
  }

  /** A ranged float parameter stores the nearest value inside its range. */
  function Clamp(x: real, lo: real, hi: real): (r: real)
    requires lo <= hi
    ensures lo <= r <= hi
    ensures lo <= x <= hi ==> r == x
    ensures x < lo ==> r == lo
    ensures hi < x ==> r == hi
  {
    if x < lo then lo else if hi < x then hi else x
  }
}
