/** The tick timestamp: nanoseconds since the epoch, composed from one
    `timespec` reading of the real-time clock in 64-bit unsigned arithmetic. */
module EpochTime {
  import opened CInts

  const NanosPerSecond: int := 1000000000

  /** A `struct timespec` as the clock fills it in. */
  datatype Timespec = Timespec(tvSec: i64, tvNsec: i64)

  /** A reading the clock can return: a non-negative second count and a
      nanosecond part below one second. */
  predicate IsNormalized(ts: Timespec) {
    0 <= ts.tvSec && 0 <= ts.tvNsec < NanosPerSecond
  }

  /** The reading's value fits in 64 bits without wrapping. */
  predicate FitsIn64(ts: Timespec) {
    ts.tvSec * NanosPerSecond + ts.tvNsec < TwoTo64
  }

  /** `(unsigned long long)tv_sec * 1000000000 + tv_nsec`: each step of the
      unsigned expression reduced modulo 2^64. */
  function EpochTimeNsec(ts: Timespec): u64 {
    ((ts.tvSec % TwoTo64) * NanosPerSecond % TwoTo64 + ts.tvNsec % TwoTo64) % TwoTo64
  }

  /** Whatever the reading, the timestamp is the exact composition reduced
      modulo 2^64 once. */
  lemma EpochTimeWraps(ts: Timespec)
    ensures EpochTimeNsec(ts) == (ts.tvSec * NanosPerSecond + ts.tvNsec) % TwoTo64
  {
  }

  /** A normalized reading that fits is composed exactly, and the second and
      nanosecond parts can be read back from the timestamp. */
  lemma EpochTimeExact(ts: Timespec)
    requires IsNormalized(ts) && FitsIn64(ts)
    ensures EpochTimeNsec(ts) == ts.tvSec * NanosPerSecond + ts.tvNsec
    ensures EpochTimeNsec(ts) / NanosPerSecond == ts.tvSec
    ensures EpochTimeNsec(ts) % NanosPerSecond == ts.tvNsec
  {
  }

  /** Of two normalized readings that fit, the later one never yields the
      smaller timestamp. */
  lemma EpochTimeMonotonic(earlier: Timespec, later: Timespec)
    requires IsNormalized(earlier) && FitsIn64(earlier)
    requires IsNormalized(later) && FitsIn64(later)
    requires earlier.tvSec < later.tvSec
             || (earlier.tvSec == later.tvSec && earlier.tvNsec <= later.tvNsec)
    ensures EpochTimeNsec(earlier) <= EpochTimeNsec(later)
  {
    EpochTimeExact(earlier);
    EpochTimeExact(later);
  }
}
