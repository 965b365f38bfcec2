/** Per-stream clocks and the relative timestamps derived from them.

    Times are exact seconds. A clock holding 0.0 is "unset": the source
    compares its clocks with `CMTime.zero`, so a stream whose last
    timestamp really was zero reads as unset as well. */
module Timestamps {

  const Unset: real := 0.0

  /** The relative timestamp, in milliseconds, of a sample at `ts` on a stream
      whose clock is `clock`: zero on an unset clock, otherwise the elapsed
      time scaled to milliseconds. */
  function Delta(clock: real, ts: real): (d: real)
    ensures clock == Unset ==> d == 0.0
    ensures clock != Unset ==> clock + d / 1000.0 == ts
    ensures 0.0 <= d <==> clock == Unset || clock <= ts
  {
    if clock == Unset then 0.0 else (ts - clock) * 1000.0
  }

  /** Conversion of a real to an integer by dropping its fraction, as Swift's
      `Int32(_: Double)` does. */
  function TruncateTowardZero(x: real): (n: int)
    ensures 0.0 <= x ==> 0 <= n && n as real <= x < n as real + 1.0
    ensures x < 0.0 ==> n <= 0 && n as real - 1.0 < x <= n as real
  {
    if 0.0 <= x then x.Floor else -((-x).Floor)
  }
}
