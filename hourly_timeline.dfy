/**
 * The hourly food-zone projection of the calendar timeline
 * (HourlyTimeline.kt, the non-composable parts): which hour each intake is
 * shown at, and the zone of each hour of the displayed day. Distances are
 * whole hours and every boundary is inclusive (`<=`).
 */
module HourlyTimeline {
  import opened Wrappers
  import opened Time
  import opened FoodZones
  import opened Intakes
  import FoodZoneCalculator

  /** A completed intake with a recorded actual time is shown then; any other at its scheduled time. */
  function DisplayTime(intake: MedicationIntake): (t: Instant)
    ensures t == intake.scheduledTime || Some(t) == intake.actualTime
    ensures intake.isCompleted && intake.actualTime.Some? ==> t == intake.actualTime.value
    ensures !intake.isCompleted ==> t == intake.scheduledTime
  {
    if intake.isCompleted && intake.actualTime.Some? then intake.actualTime.value else intake.scheduledTime
  }

  /** The local hour of each intake's display time, in the order of the intakes. */
  function IntakeHours(intakes: seq<MedicationIntake>, offset: ZoneOffset): (hours: seq<int>)
    ensures |hours| == |intakes|
    ensures forall i :: 0 <= i < |intakes| ==> hours[i] == LocalHour(DisplayTime(intakes[i]), offset)
    ensures forall h :: h in hours ==> 0 <= h < 24
  {
    seq(|intakes|, i requires 0 <= i < |intakes| => LocalHour(DisplayTime(intakes[i]), offset))
  }

  /** The local hour of the previous day's intake, chosen the same way; null stays null. */
  function PreviousIntakeHour(previousDayIntake: Option<MedicationIntake>, offset: ZoneOffset): (h: Option<int>)
    ensures h.Some? <==> previousDayIntake.Some?
    ensures h.Some? ==> 0 <= h.value < 24 && h.value == LocalHour(DisplayTime(previousDayIntake.value), offset)
  {
    if previousDayIntake.Some? then Some(LocalHour(DisplayTime(previousDayIntake.value), offset)) else None
  }

  /** Zone of `hour` relative to one intake at `intakeHour` of the same day. */
  function ZoneRelativeToSingleIntake(hour: int, intakeHour: int, config: FoodZoneConfig): (z: FoodZone)
    ensures hour == intakeHour ==> z == Red
    ensures hour < intakeHour ==>
      && (z == Red <==> intakeHour - hour <= config.yellowHoursBefore)
      && (z == Green <==> intakeHour - hour > config.yellowHoursBefore && intakeHour - hour > config.greenHoursBefore)
    ensures hour > intakeHour ==>
      && (z == Red <==> hour - intakeHour <= config.redHoursAfter)
      && (z == Green <==> hour - intakeHour > config.redHoursAfter && hour - intakeHour > config.yellowHoursAfter)
  {
    if hour < intakeHour then
      var hoursBefore := intakeHour - hour;
      if hoursBefore <= config.yellowHoursBefore then Red
      else if hoursBefore <= config.greenHoursBefore then Yellow
      else Green
    else if hour == intakeHour then Red
    else
      var hoursAfter := hour - intakeHour;
      if hoursAfter <= config.redHoursAfter then Red
      else if hoursAfter <= config.yellowHoursAfter then Yellow
      else Green
  }

  /** Carry-over of the previous day's intake: the after-thresholds only, across midnight. */
  function PreviousDayZone(hour: int, previousIntakeHour: int, config: FoodZoneConfig): (z: FoodZone)
    ensures z == Red <==> (24 - previousIntakeHour) + hour <= config.redHoursAfter
    ensures z == Green <==>
      ((24 - previousIntakeHour) + hour > config.redHoursAfter && (24 - previousIntakeHour) + hour > config.yellowHoursAfter)
  {
    var hoursSincePreviousIntake := (24 - previousIntakeHour) + hour;
    if hoursSincePreviousIntake <= config.redHoursAfter then Red
    else if hoursSincePreviousIntake <= config.yellowHoursAfter then Yellow
    else Green
  }

  /** Every zone that applies to `hour`: one per intake hour, then the carry-over if any. */
  function Contributions(hour: int, intakeHours: seq<int>, previousIntakeHour: Option<int>, config: FoodZoneConfig): (zs: seq<FoodZone>)
    ensures |zs| == |intakeHours| + (if previousIntakeHour.Some? then 1 else 0)
    ensures forall i :: 0 <= i < |intakeHours| ==> zs[i] == ZoneRelativeToSingleIntake(hour, intakeHours[i], config)
    ensures previousIntakeHour.Some? ==> zs[|intakeHours|] == PreviousDayZone(hour, previousIntakeHour.value, config)
  {
    seq(|intakeHours|, i requires 0 <= i < |intakeHours| => ZoneRelativeToSingleIntake(hour, intakeHours[i], config))
      + (if previousIntakeHour.Some? then [PreviousDayZone(hour, previousIntakeHour.value, config)] else [])
  }

  /** `zones.minByOrNull { rank } ?: GREEN`: the first most restrictive zone of the list. */
  function MostRestrictive(zones: seq<FoodZone>): (z: FoodZone)
    ensures zones == [] ==> z == Green
    ensures zones != [] ==> z in zones
    ensures forall y :: y in zones ==> Rank(z) <= Rank(y)
  {
    if zones == [] then Green
    else
      var rest := MostRestrictive(zones[..|zones| - 1]);
      var last := zones[|zones| - 1];
      assert zones == zones[..|zones| - 1] + [last];
      if |zones| == 1 || Rank(last) < Rank(rest) then last else rest
  }

  /** The zone shown for `hour` (HourlyTimeline.kt:122-154). */
  function FoodZoneForHour(hour: int, intakeHours: seq<int>, previousIntakeHour: Option<int>, config: FoodZoneConfig): FoodZone {
    if intakeHours == [] && previousIntakeHour.None? then Green
    else MostRestrictive(Contributions(hour, intakeHours, previousIntakeHour, config))
  }

  /**
   * `calculateFoodZoneForHour`: collect the contributions in a list, then pick
   * the first of minimal rank.
   */
  method CalculateFoodZoneForHour(hour: int, intakeHours: seq<int>, previousIntakeHour: Option<int>, config: FoodZoneConfig)
    returns (zone: FoodZone)
    ensures zone == FoodZoneForHour(hour, intakeHours, previousIntakeHour, config)
  {
    if intakeHours == [] && previousIntakeHour.None? {
      return Green;
    }
    var zones: seq<FoodZone> := [];
    for i := 0 to |intakeHours|
      invariant zones == Contributions(hour, intakeHours[..i], None, config)
    {
      zones := zones + [ZoneRelativeToSingleIntake(hour, intakeHours[i], config)];
    }
    assert intakeHours[..|intakeHours|] == intakeHours;
    if previousIntakeHour.Some? {
      var hoursSincePreviousIntake := (24 - previousIntakeHour.value) + hour;
      var postZone :=
        if hoursSincePreviousIntake <= config.redHoursAfter then Red
        else if hoursSincePreviousIntake <= config.yellowHoursAfter then Yellow
        else Green;
      zones := zones + [postZone];
    }
    assert zones == Contributions(hour, intakeHours, previousIntakeHour, config);
    var best: Option<FoodZone> := None;
    for j := 0 to |zones|
      invariant best == if j == 0 then None else Some(MostRestrictive(zones[..j]))
    {
      assert zones[..j + 1][..j] == zones[..j];
      if best.None? || Rank(zones[j]) < Rank(best.value) {
        best := Some(zones[j]);
      }
    }
    assert zones[..|zones|] == zones;
    zone := best.GetOr(Green);
  }

  /**
   * The hour's zone is the most restrictive contribution: at least as
   * restrictive as every intake's and the carry-over's, and equal to one of
   * them (GREEN when there are none).
   */
  lemma {:induction false} FoodZoneForHourIsMostRestrictive(hour: int, intakeHours: seq<int>, previousIntakeHour: Option<int>, config: FoodZoneConfig)
    ensures var z := FoodZoneForHour(hour, intakeHours, previousIntakeHour, config);
      && (forall h :: h in intakeHours ==> Rank(z) <= Rank(ZoneRelativeToSingleIntake(hour, h, config)))
      && (previousIntakeHour.Some? ==> Rank(z) <= Rank(PreviousDayZone(hour, previousIntakeHour.value, config)))
      && (|| z == Green
          || (exists h :: h in intakeHours && z == ZoneRelativeToSingleIntake(hour, h, config))
          || (previousIntakeHour.Some? && z == PreviousDayZone(hour, previousIntakeHour.value, config)))
  {
    var zs := Contributions(hour, intakeHours, previousIntakeHour, config);
    var z := FoodZoneForHour(hour, intakeHours, previousIntakeHour, config);
    forall h | h in intakeHours
      ensures Rank(z) <= Rank(ZoneRelativeToSingleIntake(hour, h, config))
    {
      var i :| 0 <= i < |intakeHours| && intakeHours[i] == h;
      assert zs[i] in zs;
    }
    if previousIntakeHour.Some? {
      assert zs[|intakeHours|] in zs;
    }
    if z != Green {
      var k :| 0 <= k < |zs| && zs[k] == z;
      if k < |intakeHours| {
        assert intakeHours[k] in intakeHours;
      }
    }
  }

  /** Two lists of zones holding the same zones give the same most restrictive one. */
  lemma MostRestrictiveDependsOnlyOnMembers(xs: seq<FoodZone>, ys: seq<FoodZone>)
    requires forall z :: z in xs <==> z in ys
    ensures MostRestrictive(xs) == MostRestrictive(ys)
  {
    var a, b := MostRestrictive(xs), MostRestrictive(ys);
    if xs != [] {
      assert ys != [] by { assert xs[0] in ys; }
      RankInjective(a, b);
    }
  }

  /** The order (and repetition) of the intake hours does not matter. */
  lemma FoodZoneForHourOrderIndependent(hour: int, hs1: seq<int>, hs2: seq<int>, previousIntakeHour: Option<int>, config: FoodZoneConfig)
    requires forall h :: h in hs1 <==> h in hs2
    ensures FoodZoneForHour(hour, hs1, previousIntakeHour, config) == FoodZoneForHour(hour, hs2, previousIntakeHour, config)
  {
    var zs1 := Contributions(hour, hs1, previousIntakeHour, config);
    var zs2 := Contributions(hour, hs2, previousIntakeHour, config);
    ContributionsMembers(hour, hs1, hs2, previousIntakeHour, config);
    ContributionsMembers(hour, hs2, hs1, previousIntakeHour, config);
    MostRestrictiveDependsOnlyOnMembers(zs1, zs2);
  }

  /** Every contribution for one list of hours is a contribution for a list holding the same hours. */
  lemma ContributionsMembers(hour: int, hs1: seq<int>, hs2: seq<int>, previousIntakeHour: Option<int>, config: FoodZoneConfig)
    requires forall h :: h in hs1 ==> h in hs2
    ensures forall z :: z in Contributions(hour, hs1, previousIntakeHour, config) ==> z in Contributions(hour, hs2, previousIntakeHour, config)
  {
    var zs1 := Contributions(hour, hs1, previousIntakeHour, config);
    var zs2 := Contributions(hour, hs2, previousIntakeHour, config);
    forall z | z in zs1 ensures z in zs2 {
      var k :| 0 <= k < |zs1| && zs1[k] == z;
      if k < |hs1| {
        assert hs1[k] in hs2;
        var j :| 0 <= j < |hs2| && hs2[j] == hs1[k];
        assert zs2[j] == z;
      } else {
        assert zs2[|hs2|] == z;
      }
    }
  }

  /** One more intake never makes any hour less restrictive. */
  lemma AddingIntakeNeverRelaxes(hour: int, intakeHours: seq<int>, newHour: int, previousIntakeHour: Option<int>, config: FoodZoneConfig)
    ensures Rank(FoodZoneForHour(hour, intakeHours + [newHour], previousIntakeHour, config))
         <= Rank(FoodZoneForHour(hour, intakeHours, previousIntakeHour, config))
  {
    var before := FoodZoneForHour(hour, intakeHours, previousIntakeHour, config);
    var after := FoodZoneForHour(hour, intakeHours + [newHour], previousIntakeHour, config);
    FoodZoneForHourIsMostRestrictive(hour, intakeHours, previousIntakeHour, config);
    FoodZoneForHourIsMostRestrictive(hour, intakeHours + [newHour], previousIntakeHour, config);
    if before != Green {
      if h :| h in intakeHours && before == ZoneRelativeToSingleIntake(hour, h, config) {
        assert h in intakeHours + [newHour];
      }
    }
  }

  /** A carry-over from the previous day never makes any hour less restrictive. */
  lemma AddingPreviousDayNeverRelaxes(hour: int, intakeHours: seq<int>, previousIntakeHour: int, config: FoodZoneConfig)
    ensures Rank(FoodZoneForHour(hour, intakeHours, Some(previousIntakeHour), config))
         <= Rank(FoodZoneForHour(hour, intakeHours, None, config))
  {
    FoodZoneForHourIsMostRestrictive(hour, intakeHours, Some(previousIntakeHour), config);
    FoodZoneForHourIsMostRestrictive(hour, intakeHours, None, config);
  }

  /** No intakes and no carry-over: every hour is GREEN. */
  lemma EmptyDayIsGreen(hour: int, config: FoodZoneConfig)
    ensures FoodZoneForHour(hour, [], None, config) == Green
  {
  }

  /** The carry-over from the previous day only relaxes as the hour advances. */
  lemma PreviousDayZoneRelaxes(h1: int, h2: int, previousIntakeHour: int, config: FoodZoneConfig)
    requires h1 <= h2
    ensures Rank(PreviousDayZone(h1, previousIntakeHour, config)) <= Rank(PreviousDayZone(h2, previousIntakeHour, config))
  {
  }

  /**
   * An Intuniv intake at 08:00: 10:00 and 11:00 (exactly redHoursAfter later)
   * are RED, 13:00 is YELLOW, 14:00 GREEN; 05:00 (3 h before) is RED and
   * 04:00 YELLOW.
   */
  lemma IntunivTimelineExample()
    ensures FoodZoneForHour(10, [8], None, IntunivDefault) == Red
    ensures FoodZoneForHour(11, [8], None, IntunivDefault) == Red
    ensures FoodZoneForHour(13, [8], None, IntunivDefault) == Yellow
    ensures FoodZoneForHour(14, [8], None, IntunivDefault) == Green
    ensures FoodZoneForHour(5, [8], None, IntunivDefault) == Red
    ensures FoodZoneForHour(4, [8], None, IntunivDefault) == Yellow
  {
  }

  /**
   * At whole-hour distances the hourly projection is never less restrictive
   * than the instant-level classifier: its boundaries are inclusive where the
   * classifier's are strict.
   */
  lemma HourlyAtLeastAsRestrictiveAsInstant(intakeHour: int, d: nat, t: Instant, config: FoodZoneConfig)
    ensures Rank(ZoneRelativeToSingleIntake(intakeHour + d, intakeHour, config))
         <= Rank(FoodZoneCalculator.Calculate(t + Hours(d), Some(t), None, config))
    ensures Rank(ZoneRelativeToSingleIntake(intakeHour - d, intakeHour, config))
         <= Rank(FoodZoneCalculator.Calculate(t - Hours(d), None, Some(t), config))
  {
  }

  /** Exactly redHoursAfter hours after an intake, the hour is RED while the instant is already YELLOW. */
  lemma BoundaryDiffersFromInstant(t: Instant)
    ensures ZoneRelativeToSingleIntake(11, 8, IntunivDefault) == Red
    ensures FoodZoneCalculator.Calculate(t + Hours(3), Some(t), None, IntunivDefault) == Yellow
  {
  }
}
