/** Durations in nanoseconds, the int64 range, and how old a reading may be. */
module Units {
  const SECOND := 1_000_000_000
  const MINUTE := 60_000_000_000
  const HOUR := 3_600_000_000_000
  const DAY := 86_400_000_000_000

  const MAX64 := 0x7FFF_FFFF_FFFF_FFFF

  const TELEMETRY_MAX_AGE := 45 * SECOND
}
