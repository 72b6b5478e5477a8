/** The two guanfacine formulations and the food-zone preset of each (MedicationType.kt). */
module MedicationTypes {
  import opened Wrappers
  import opened FoodZones

  datatype MedicationType = Intuniv | Tenex

  const DefaultMedicationType: MedicationType := Intuniv

  /** The enum constant's `name`, as the settings store keeps it. */
  function MedicationTypeName(t: MedicationType): string {
    match t
    case Intuniv => "INTUNIV"
    case Tenex => "TENEX"
  }

  /** Extended-release Intuniv keeps food away longer after an intake than immediate-release Tenex. */
  function GetFoodZoneConfig(t: MedicationType): (c: FoodZoneConfig)
    ensures WellOrdered(c)
    ensures t == Intuniv ==> c == IntunivDefault
    ensures t == Tenex ==> c == TenexDefault
  {
    match t
    case Intuniv => IntunivDefault
    case Tenex => TenexDefault
  }

  /** Total parse of a stored name: only "TENEX" selects Tenex; null and anything else give Intuniv. */
  function FromString(value: Option<string>): (t: MedicationType)
    ensures t == Tenex <==> value == Some("TENEX")
  {
    if value == Some(MedicationTypeName(Tenex)) then Tenex else Intuniv
  }

  /** Storing a type by name and reading it back yields the same type. */
  lemma FromStringRoundTrip(t: MedicationType)
    ensures FromString(Some(MedicationTypeName(t))) == t
  {
  }
}
