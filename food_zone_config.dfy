/**
 * The three food zones and the threshold record that defines them
 * (FoodZoneConfig.kt), with the two medication presets.
 */
module FoodZones {

  /** GREEN: eating is fine; YELLOW: caution; RED: avoid eating. */
  datatype FoodZone = Green | Yellow | Red

  /**
   * Restrictiveness as the hourly timeline orders zones: RED 0, YELLOW 1,
   * GREEN 2. A lower rank is more restrictive.
   */
  function Rank(z: FoodZone): (r: nat)
    ensures r <= 2
    ensures r == 0 <==> z == Red
    ensures r == 2 <==> z == Green
  {
    match z
    case Red => 0
    case Yellow => 1
    case Green => 2
  }

  /** A zone is determined by its rank. */
  lemma RankInjective(a: FoodZone, b: FoodZone)
    requires Rank(a) == Rank(b)
    ensures a == b
  {
  }

  /** Threshold hours around an intake (FoodZoneConfig.kt:3-8). */
  datatype FoodZoneConfig = FoodZoneConfig(
    greenHoursBefore: int,
    yellowHoursBefore: int,
    redHoursAfter: int,
    yellowHoursAfter: int
  )

  const IntunivDefault: FoodZoneConfig := FoodZoneConfig(5, 3, 3, 5)
  const TenexDefault: FoodZoneConfig := FoodZoneConfig(5, 3, 1, 2)
  const DefaultConfig: FoodZoneConfig := IntunivDefault

  /**
   * Non-negative thresholds whose zones nest: the yellow band before an intake
   * starts no later than the red one, and the red band after an intake ends no
   * later than the yellow one.
   */
  predicate WellOrdered(c: FoodZoneConfig) {
    && 0 <= c.yellowHoursBefore <= c.greenHoursBefore
    && 0 <= c.redHoursAfter <= c.yellowHoursAfter
  }

  /** The shipped presets and their values. */
  lemma PresetsAreWellOrdered()
    ensures IntunivDefault.greenHoursBefore == 5 && IntunivDefault.yellowHoursBefore == 3
    ensures IntunivDefault.redHoursAfter == 3 && IntunivDefault.yellowHoursAfter == 5
    ensures TenexDefault.greenHoursBefore == 5 && TenexDefault.yellowHoursBefore == 3
    ensures TenexDefault.redHoursAfter == 1 && TenexDefault.yellowHoursAfter == 2
    ensures DefaultConfig == IntunivDefault
    ensures WellOrdered(IntunivDefault) && WellOrdered(TenexDefault)
  {
  }
}
