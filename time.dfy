/**
 * Instants and local wall-clock time.
 *
 * An instant is a count of milliseconds since the Unix epoch. A time zone is
 * modelled as a fixed offset from UTC (no daylight-saving transitions), so a
 * calendar day is always 86 400 000 ms long and the local time of an instant
 * is `(t + offset)` modulo a day.
 */
module Time {

  type Instant = int

  /** Offset of a fixed time zone from UTC, in milliseconds. */
  type ZoneOffset = int

  const MillisPerMinute: int := 60_000
  const MillisPerHour: int := 3_600_000
  const MillisPerDay: int := 86_400_000

  /** `n.hours` as a duration in milliseconds. */
  function Hours(n: int): int {
    n * MillisPerHour
  }

  /** Milliseconds elapsed since local midnight. */
  function MillisOfLocalDay(t: Instant, offset: ZoneOffset): (ms: int)
    ensures 0 <= ms < MillisPerDay
  {
    (t + offset) % MillisPerDay
  }

  /** `t.toLocalDateTime(zone).time.hour` */
  function LocalHour(t: Instant, offset: ZoneOffset): (h: int)
    ensures 0 <= h < 24
  {
    MillisOfLocalDay(t, offset) / MillisPerHour
  }

  /** `t.toLocalDateTime(zone).time.minute` */
  function LocalMinute(t: Instant, offset: ZoneOffset): (m: int)
    ensures 0 <= m < 60
  {
    MillisOfLocalDay(t, offset) % MillisPerHour / MillisPerMinute
  }

  /** Local midnight of the calendar day that holds `t`. */
  function StartOfLocalDay(t: Instant, offset: ZoneOffset): (d: Instant)
    ensures d <= t < d + MillisPerDay
    ensures MillisOfLocalDay(d, offset) == 0
  {
    t - MillisOfLocalDay(t, offset)
  }

  /** Millisecond of the local day at which the wall-clock time hour:minute starts. */
  function MillisOfTime(hour: int, minute: int): (ms: int)
    requires 0 <= hour < 24 && 0 <= minute < 60
    ensures 0 <= ms < MillisPerDay
  {
    hour * MillisPerHour + minute * MillisPerMinute
  }

  /**
   * `LocalTime(hour, minute).atDate(today).toInstant(zone)`, where `today` is
   * the local date of `t`.
   */
  function AtLocalTimeOnSameDay(t: Instant, hour: int, minute: int, offset: ZoneOffset): (r: Instant)
    requires 0 <= hour < 24 && 0 <= minute < 60
    ensures StartOfLocalDay(t, offset) <= r < StartOfLocalDay(t, offset) + MillisPerDay
    ensures MillisOfLocalDay(r, offset) == MillisOfTime(hour, minute)
  {
    var d := StartOfLocalDay(t, offset);
    MillisOfDayOfShift(d, MillisOfTime(hour, minute), offset);
    d + MillisOfTime(hour, minute)
  }

  /** `t.plus(1, DateTimeUnit.DAY, zone)` in a fixed-offset zone. */
  function PlusOneDay(t: Instant, offset: ZoneOffset): (r: Instant)
    ensures r - t == MillisPerDay
    ensures MillisOfLocalDay(r, offset) == MillisOfLocalDay(t, offset)
  {
    var q := (t + offset) / MillisPerDay;
    assert t + offset == q * MillisPerDay + MillisOfLocalDay(t, offset);
    assert t + MillisPerDay + offset == (q + 1) * MillisPerDay + MillisOfLocalDay(t, offset);
    t + MillisPerDay
  }

  /** Shifting local midnight by less than a day lands that far into the day. */
  lemma MillisOfDayOfShift(d: Instant, x: int, offset: ZoneOffset)
    requires MillisOfLocalDay(d, offset) == 0
    requires 0 <= x < MillisPerDay
    ensures MillisOfLocalDay(d + x, offset) == x
  {
    var q := (d + offset) / MillisPerDay;
    assert d + offset == q * MillisPerDay;
    assert d + x + offset == q * MillisPerDay + x;
  }

  /** Two instants less than a day apart never share a millisecond of the local day. */
  lemma DistinctWithinADay(s: Instant, t: Instant, offset: ZoneOffset)
    requires s < t < s + MillisPerDay
    ensures MillisOfLocalDay(s, offset) != MillisOfLocalDay(t, offset)
  {
    var qs := (s + offset) / MillisPerDay;
    var qt := (t + offset) / MillisPerDay;
    assert s + offset == qs * MillisPerDay + MillisOfLocalDay(s, offset);
    assert t + offset == qt * MillisPerDay + MillisOfLocalDay(t, offset);
    assert (qt - qs) * MillisPerDay + MillisOfLocalDay(t, offset) - MillisOfLocalDay(s, offset) == t - s;
  }
}
