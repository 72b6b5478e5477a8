/**
 * The instant-level food-zone classifier (FoodZoneCalculator.kt).
 *
 * Each side of "now" contributes an optional sub-zone: the time elapsed since
 * the last intake gives the after-zone, the time left until the next scheduled
 * intake gives the before-zone. Both use strict `<` against whole-hour
 * thresholds; the source divides milliseconds by 3 600 000.0 and compares the
 * quotient, which the model states exactly as `ms < hours * 3 600 000`.
 */
module FoodZoneCalculator {
  import opened Wrappers
  import opened Time
  import opened FoodZones

  /** Rank of an optional sub-zone; an absent sub-zone restricts nothing. */
  function SubRank(z: Option<FoodZone>): nat {
    if z.Some? then Rank(z.value) else 2
  }

  /** Restriction driven by the time elapsed since the last intake. */
  function AfterZone(now: Instant, lastTakenTime: Option<Instant>, config: FoodZoneConfig): (z: Option<FoodZone>)
    ensures z != Some(Green)
    ensures lastTakenTime.None? ==> z.None?
    ensures lastTakenTime.Some? ==>
      var elapsed := now - lastTakenTime.value;
      && (z == Some(Red) <==> elapsed < Hours(config.redHoursAfter))
      && (z.None? <==> elapsed >= Hours(config.redHoursAfter) && elapsed >= Hours(config.yellowHoursAfter))
  {
    if lastTakenTime.None? then None
    else
      var elapsed := now - lastTakenTime.value;
      if elapsed < Hours(config.redHoursAfter) then Some(Red)
      else if elapsed < Hours(config.yellowHoursAfter) then Some(Yellow)
      else None
  }

  /** Restriction driven by the time left until the next scheduled intake (overdue counts as zero or less). */
  function BeforeZone(now: Instant, nextScheduledTime: Option<Instant>, config: FoodZoneConfig): (z: Option<FoodZone>)
    ensures z != Some(Green)
    ensures nextScheduledTime.None? ==> z.None?
    ensures nextScheduledTime.Some? ==>
      var until := nextScheduledTime.value - now;
      && (z == Some(Red) <==> until < Hours(config.yellowHoursBefore))
      && (z.None? <==> until >= Hours(config.yellowHoursBefore) && until >= Hours(config.greenHoursBefore))
  {
    if nextScheduledTime.None? then None
    else
      var until := nextScheduledTime.value - now;
      if until < Hours(config.yellowHoursBefore) then Some(Red)
      else if until < Hours(config.greenHoursBefore) then Some(Yellow)
      else None
  }

  /** Most-restrictive-wins combination of the two sub-zones (FoodZoneCalculator.kt:16-20). */
  function Combine(afterZone: Option<FoodZone>, beforeZone: Option<FoodZone>): (z: FoodZone)
    ensures Rank(z) == if SubRank(afterZone) <= SubRank(beforeZone) then SubRank(afterZone) else SubRank(beforeZone)
  {
    if afterZone == Some(Red) || beforeZone == Some(Red) then Red
    else if afterZone == Some(Yellow) || beforeZone == Some(Yellow) then Yellow
    else Green
  }

  /** The combination does not depend on which side a sub-zone comes from. */
  lemma CombineSymmetric(a: Option<FoodZone>, b: Option<FoodZone>)
    ensures Combine(a, b) == Combine(b, a)
  {
  }

  /** The zone of `now` given the last intake, the next scheduled intake and the thresholds. */
  function Calculate(now: Instant, lastTakenTime: Option<Instant>, nextScheduledTime: Option<Instant>, config: FoodZoneConfig): (z: FoodZone)
    ensures lastTakenTime.None? && nextScheduledTime.None? ==> z == Green
    ensures Rank(z) <= SubRank(AfterZone(now, lastTakenTime, config))
    ensures Rank(z) <= SubRank(BeforeZone(now, nextScheduledTime, config))
    ensures
      var a := SubRank(AfterZone(now, lastTakenTime, config));
      var b := SubRank(BeforeZone(now, nextScheduledTime, config));
      Rank(z) == if a <= b then a else b
  {
    Combine(AfterZone(now, lastTakenTime, config), BeforeZone(now, nextScheduledTime, config))
  }

  /** The overall zone is the more restrictive of the zones each side would give on its own. */
  lemma CalculateSplits(now: Instant, lastTakenTime: Option<Instant>, nextScheduledTime: Option<Instant>, config: FoodZoneConfig)
    ensures
      var a := Calculate(now, lastTakenTime, None, config);
      var b := Calculate(now, None, nextScheduledTime, config);
      Calculate(now, lastTakenTime, nextScheduledTime, config) == (if Rank(a) <= Rank(b) then a else b)
  {
    var a := Calculate(now, lastTakenTime, None, config);
    var b := Calculate(now, None, nextScheduledTime, config);
    var z := Calculate(now, lastTakenTime, nextScheduledTime, config);
    RankInjective(z, if Rank(a) <= Rank(b) then a else b);
  }

  /**
   * The after-zone boundaries are strict: exactly `redHoursAfter` hours after the
   * intake is no longer RED, and exactly `yellowHoursAfter` hours after is GREEN.
   */
  lemma AfterBoundariesAreStrict(t: Instant, config: FoodZoneConfig)
    requires WellOrdered(config) && config.redHoursAfter < config.yellowHoursAfter
    ensures Calculate(t + Hours(config.redHoursAfter) - 1, Some(t), None, config) == Red
    ensures Calculate(t + Hours(config.redHoursAfter), Some(t), None, config) == Yellow
    ensures Calculate(t + Hours(config.yellowHoursAfter) - 1, Some(t), None, config) == Yellow
    ensures Calculate(t + Hours(config.yellowHoursAfter), Some(t), None, config) == Green
  {
  }

  /**
   * The before-zone boundaries: RED while less than `yellowHoursBefore` hours
   * remain (including zero and overdue), YELLOW from exactly that distance.
   */
  lemma BeforeBoundariesAreStrict(t: Instant, config: FoodZoneConfig)
    requires WellOrdered(config) && 0 < config.yellowHoursBefore < config.greenHoursBefore
    ensures Calculate(t, None, Some(t), config) == Red
    ensures forall now :: now >= t ==> Calculate(now, None, Some(t), config) == Red
    ensures Calculate(t - Hours(config.yellowHoursBefore), None, Some(t), config) == Yellow
    ensures Calculate(t - Hours(config.greenHoursBefore), None, Some(t), config) == Green
  {
  }

  /** An intake recorded later than `now` counts as just taken: RED. */
  lemma FutureIntakeIsRed(now: Instant, lastTakenTime: Instant, nextScheduledTime: Option<Instant>, config: FoodZoneConfig)
    requires lastTakenTime > now && config.redHoursAfter >= 0
    ensures Calculate(now, Some(lastTakenTime), nextScheduledTime, config) == Red
  {
  }

  /** With only a last intake known, time passing never makes the zone more restrictive. */
  lemma AfterZoneRelaxesOverTime(t: Instant, now1: Instant, now2: Instant, config: FoodZoneConfig)
    requires now1 <= now2
    ensures Rank(Calculate(now1, Some(t), None, config)) <= Rank(Calculate(now2, Some(t), None, config))
  {
  }

  /** With only a next intake known, time passing never makes the zone less restrictive. */
  lemma BeforeZoneTightensOverTime(t: Instant, now1: Instant, now2: Instant, config: FoodZoneConfig)
    requires now1 <= now2
    ensures Rank(Calculate(now2, None, Some(t), config)) <= Rank(Calculate(now1, None, Some(t), config))
  {
  }

  /**
   * The scenarios of the zone tests (thresholds 5/3/3/5): 2 h after is RED,
   * 4 h YELLOW, 6 h GREEN; 2 h before RED, 4 h YELLOW, 6 h GREEN; 4 h after
   * and 2 h before is RED; lowering redHoursAfter to 1 turns 2 h after into YELLOW.
   */
  lemma ZoneTestScenarios(now: Instant)
    ensures Calculate(now, Some(now - Hours(2)), None, IntunivDefault) == Red
    ensures Calculate(now, Some(now - Hours(4)), None, IntunivDefault) == Yellow
    ensures Calculate(now, Some(now - Hours(6)), None, IntunivDefault) == Green
    ensures Calculate(now, None, Some(now + Hours(2)), IntunivDefault) == Red
    ensures Calculate(now, None, Some(now + Hours(4)), IntunivDefault) == Yellow
    ensures Calculate(now, None, Some(now + Hours(6)), IntunivDefault) == Green
    ensures Calculate(now, Some(now - Hours(4)), Some(now + Hours(4)), IntunivDefault) == Yellow
    ensures Calculate(now, Some(now - Hours(4)), Some(now + Hours(2)), IntunivDefault) == Red
    ensures Calculate(now, Some(now - Hours(2)), Some(now + Hours(4)), IntunivDefault) == Red
    ensures Calculate(now, Some(now - Hours(3)), None, IntunivDefault) == Yellow
    ensures Calculate(now, Some(now - Hours(5)), None, IntunivDefault) == Green
    ensures Calculate(now, Some(now - Hours(2)), None, FoodZoneConfig(5, 3, 1, 3)) == Yellow
  {
  }
}
