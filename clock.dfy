/**
 * Instants as integer milliseconds since the epoch, and the local calendar seen through a
 * fixed offset from UTC (daylight-saving changes are not modelled).
 */
module Clock {
  const MillisPerSecond := 1000
  const MillisPerHour := 3600000
  /** `1000 * 60 * 60 * 24` */
  const MillisPerDay := 86400000

  /** The local calendar day (days since the epoch) containing instant `t`. */
  function LocalDay(t: int, offset: int): int {
    (t + offset) / MillisPerDay
  }

  /** Milliseconds since local midnight. */
  function LocalTimeOfDay(t: int, offset: int): (ms: int)
    ensures 0 <= ms < MillisPerDay
  {
    (t + offset) % MillisPerDay
  }

  /** An instant is its local day and its local time of day. */
  lemma LocalSplit(t: int, offset: int)
    ensures t + offset == LocalDay(t, offset) * MillisPerDay + LocalTimeOfDay(t, offset)
  {
  }
}
