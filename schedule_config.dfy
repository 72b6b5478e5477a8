/**
 * Feedback categories and the schedule policy (ScheduleConfig.kt): how many
 * hours a piece of post-intake feedback pushes the next intake back.
 */
module ScheduleConfigs {
  import opened Wrappers

  /** How the user felt after an intake. */
  datatype FeedbackType = Good | Dizzy | TooDizzy

  /** The enum constant's `name`, as it is stored in the database. */
  function FeedbackTypeName(f: FeedbackType): string {
    match f
    case Good => "GOOD"
    case Dizzy => "DIZZY"
    case TooDizzy => "TOO_DIZZY"
  }

  /**
   * `FeedbackType.valueOf(s)`; `None` where Kotlin throws
   * IllegalArgumentException because no constant has that name.
   */
  function FeedbackTypeValueOf(s: string): (r: Option<FeedbackType>)
    ensures r.Some? ==> FeedbackTypeName(r.value) == s
    ensures forall f :: FeedbackTypeName(f) == s ==> r == Some(f)
  {
    if s == "GOOD" then Some(Good)
    else if s == "DIZZY" then Some(Dizzy)
    else if s == "TOO_DIZZY" then Some(TooDizzy)
    else None
  }

  datatype ScheduleConfig = ScheduleConfig(
    feedbackDelayHours: int,
    defaultIntakeTimeHour: int,
    defaultIntakeTimeMinute: int
  )

  const DefaultScheduleConfig: ScheduleConfig := ScheduleConfig(12, 8, 0)
  const RescheduleWindowHours: int := 2
  const DizzyDelayHours: int := 12
  const TooDizzyDelayHours: int := 24

  /** Position of a feedback category on the side-effect scale. */
  function Severity(f: FeedbackType): nat {
    match f
    case Good => 0
    case Dizzy => 1
    case TooDizzy => 2
  }

  /**
   * Hours by which the next intake is delayed after this feedback. The
   * configuration is not consulted: the delays are fixed constants.
   */
  function GetDelayHoursForFeedback(config: ScheduleConfig, feedbackType: FeedbackType): (hours: int)
    ensures 0 <= hours <= TooDizzyDelayHours
    ensures hours == 0 <==> feedbackType == Good
    ensures hours == 12 * Severity(feedbackType)
  {
    match feedbackType
    case Good => 0
    case Dizzy => DizzyDelayHours
    case TooDizzy => TooDizzyDelayHours
  }

  /** The delay grows with severity and ignores every field of the configuration. */
  lemma DelayMonotoneInSeverity(c1: ScheduleConfig, c2: ScheduleConfig, f: FeedbackType, g: FeedbackType)
    requires Severity(f) <= Severity(g)
    ensures GetDelayHoursForFeedback(c1, f) <= GetDelayHoursForFeedback(c2, g)
    ensures GetDelayHoursForFeedback(c1, f) == GetDelayHoursForFeedback(c2, f)
  {
  }

  /** The shipped defaults: 12 h feedback delay, intake at 08:00, a 2 h window. */
  lemma ScheduleDefaults()
    ensures DefaultScheduleConfig.feedbackDelayHours == 12
    ensures DefaultScheduleConfig.defaultIntakeTimeHour == 8
    ensures DefaultScheduleConfig.defaultIntakeTimeMinute == 0
    ensures RescheduleWindowHours == 2
  {
  }
}
