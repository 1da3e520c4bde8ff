/** Instants in nanoseconds, durations, and the saturating 64-bit arithmetic of the admission windows. */
module Clock {
  const U64_MAX := 0xFFFF_FFFF_FFFF_FFFF

  type u64 = x: int | 0 <= x <= U64_MAX

  const SECOND := 1_000_000_000
  const MINUTE := 60 * SECOND

  /** Instant::saturating_duration_since. */
  function Elapsed(now: nat, since: nat): nat {
    if now >= since then now - since else 0
  }

  function SatAdd(a: u64, b: u64): u64 {
    if a + b > U64_MAX then U64_MAX else a + b
  }

  function SatMul(a: u64, b: u64): u64 {
    if a * b > U64_MAX then U64_MAX else a * b
  }

  /** A duration in whole seconds, rounded up, at least one: a Retry-After header. */
  function CeilSeconds(d: nat): (r: nat)
    ensures r >= 1 && r * SECOND >= d
    ensures r == 1 || (r - 1) * SECOND < d
  {
    var s := d / SECOND + if d % SECOND > 0 then 1 else 0;
    if s >= 1 then s else 1
  }
}
