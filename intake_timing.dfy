/**
 * Timing of the next intake (IntakeTimingCalculator.kt): the reschedule
 * window around today's default time, the next occurrence of the default
 * time, and the feedback delay. The time zone is a fixed offset.
 */
module IntakeTimingCalculator {
  import opened Wrappers
  import opened Time
  import opened ScheduleConfigs

  datatype IntakeTimingResult = IntakeTimingResult(
    needsReschedulePrompt: bool,
    nextIntakeTime: Option<Instant>
  )

  /** A wall-clock time `LocalTime(hour, minute)` accepts without throwing. */
  predicate ValidTimeOfDay(hour: int, minute: int) {
    0 <= hour < 24 && 0 <= minute < 60
  }

  /** Today's occurrence of the default time, today being the local date of `now`. */
  function TodayDefaultInstant(now: Instant, defaultHour: int, defaultMinute: int, offset: ZoneOffset): (t: Instant)
    requires ValidTimeOfDay(defaultHour, defaultMinute)
    ensures now - MillisPerDay < t < now + MillisPerDay
    ensures StartOfLocalDay(now, offset) <= t < StartOfLocalDay(now, offset) + MillisPerDay
    ensures MillisOfLocalDay(t, offset) == MillisOfTime(defaultHour, defaultMinute)
  {
    AtLocalTimeOnSameDay(now, defaultHour, defaultMinute, offset)
  }

  /**
   * The first instant strictly after `now` whose local time is
   * defaultHour:defaultMinute:00.000.
   */
  function CalculateNextDefaultTime(now: Instant, defaultHour: int, defaultMinute: int, offset: ZoneOffset): (r: Instant)
    requires ValidTimeOfDay(defaultHour, defaultMinute)
    ensures now < r <= now + MillisPerDay
    ensures MillisOfLocalDay(r, offset) == MillisOfTime(defaultHour, defaultMinute)
    ensures LocalHour(r, offset) == defaultHour && LocalMinute(r, offset) == defaultMinute
  {
    var today := TodayDefaultInstant(now, defaultHour, defaultMinute, offset);
    var r := if now < today then today else PlusOneDay(today, offset);
    LocalTimeOfMillis(defaultHour, defaultMinute, MillisOfLocalDay(r, offset));
    r
  }

  /** The hour and minute of a local millisecond-of-day are the ones it was built from. */
  lemma LocalTimeOfMillis(hour: int, minute: int, ms: int)
    requires ValidTimeOfDay(hour, minute) && ms == MillisOfTime(hour, minute)
    ensures ms / MillisPerHour == hour && ms % MillisPerHour / MillisPerMinute == minute
  {
    assert ms == hour * MillisPerHour + minute * MillisPerMinute;
    assert 0 <= minute * MillisPerMinute < MillisPerHour;
  }

  /** No instant between `now` and the next default time has the default local time. */
  lemma NextDefaultTimeIsEarliest(now: Instant, defaultHour: int, defaultMinute: int, offset: ZoneOffset, t: Instant)
    requires ValidTimeOfDay(defaultHour, defaultMinute)
    requires now < t < CalculateNextDefaultTime(now, defaultHour, defaultMinute, offset)
    ensures MillisOfLocalDay(t, offset) != MillisOfTime(defaultHour, defaultMinute)
  {
    DistinctWithinADay(t, CalculateNextDefaultTime(now, defaultHour, defaultMinute, offset), offset);
  }

  /**
   * Within two hours of today's default time (both ends included) no prompt is
   * needed and the next intake is the next default occurrence; outside it the
   * user is prompted and no next time is proposed.
   */
  function Calculate(now: Instant, defaultHour: int, defaultMinute: int, offset: ZoneOffset): (r: IntakeTimingResult)
    requires ValidTimeOfDay(defaultHour, defaultMinute)
    ensures
      var today := TodayDefaultInstant(now, defaultHour, defaultMinute, offset);
      !r.needsReschedulePrompt <==> today - Hours(RescheduleWindowHours) <= now <= today + Hours(RescheduleWindowHours)
    ensures r.needsReschedulePrompt <==> r.nextIntakeTime.None?
    ensures r.nextIntakeTime.Some? ==>
      r.nextIntakeTime.value == CalculateNextDefaultTime(now, defaultHour, defaultMinute, offset)
  {
    var todayDefaultInstant := TodayDefaultInstant(now, defaultHour, defaultMinute, offset);
    var windowStart := todayDefaultInstant - Hours(RescheduleWindowHours);
    var windowEnd := todayDefaultInstant + Hours(RescheduleWindowHours);
    var tomorrowDefaultInstant := PlusOneDay(todayDefaultInstant, offset);
    if now >= windowStart && now <= windowEnd then
      var nextTime := if now < todayDefaultInstant then todayDefaultInstant else tomorrowDefaultInstant;
      IntakeTimingResult(false, Some(nextTime))
    else
      IntakeTimingResult(true, None)
  }

  /**
   * Inside the window the next intake is today's default time while that is
   * still ahead, and tomorrow's otherwise.
   */
  lemma NextIntakeInsideWindow(now: Instant, defaultHour: int, defaultMinute: int, offset: ZoneOffset)
    requires ValidTimeOfDay(defaultHour, defaultMinute)
    requires !Calculate(now, defaultHour, defaultMinute, offset).needsReschedulePrompt
    ensures
      var today := TodayDefaultInstant(now, defaultHour, defaultMinute, offset);
      Calculate(now, defaultHour, defaultMinute, offset).nextIntakeTime
        == Some(if now < today then today else today + MillisPerDay)
  {
  }

  /**
   * A worked scenario in UTC: default 08:00 on the day
   * starting at `midnight`; taken at 09:30 the next intake is tomorrow 08:00,
   * taken at 14:00 the user is prompted.
   */
  lemma WindowScenario(midnight: Instant)
    requires midnight % MillisPerDay == 0
    ensures Calculate(midnight + Hours(9) + 30 * MillisPerMinute, 8, 0, 0)
      == IntakeTimingResult(false, Some(midnight + MillisPerDay + Hours(8)))
    ensures Calculate(midnight + Hours(14), 8, 0, 0) == IntakeTimingResult(true, None)
  {
    MillisOfDayOfShift(midnight, Hours(9) + 30 * MillisPerMinute, 0);
    MillisOfDayOfShift(midnight, Hours(14), 0);
  }

  /** `baseTime + delayHours.hours`; the zone is accepted and not used. */
  function ApplyFeedbackDelay(baseTime: Instant, delayHours: int, offset: ZoneOffset): (r: Instant)
    ensures r - baseTime == Hours(delayHours)
  {
    baseTime + Hours(delayHours)
  }

  /**
   * A zero delay changes nothing, successive delays add up, and the result
   * does not depend on the zone.
   */
  lemma FeedbackDelayAdds(t: Instant, a: int, b: int, offset1: ZoneOffset, offset2: ZoneOffset)
    ensures ApplyFeedbackDelay(t, 0, offset1) == t
    ensures ApplyFeedbackDelay(ApplyFeedbackDelay(t, a, offset1), b, offset1) == ApplyFeedbackDelay(t, a + b, offset2)
  {
  }
}
