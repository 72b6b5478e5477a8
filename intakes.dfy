/**
 * The intake record in its two shapes: the domain value (MedicationIntake.kt)
 * and the database row class (IntakeEntity.kt).
 */
module Intakes {
  import opened Wrappers
  import opened Time
  import opened ScheduleConfigs

  /** Whether an intake was planned by the schedule or logged by hand. */
  datatype IntakeSource = Scheduled | Manual

  /** A medication intake as the app's logic sees it. */
  datatype MedicationIntake = MedicationIntake(
    id: int,
    scheduledTime: Instant,
    actualTime: Option<Instant>,
    feedback: Option<FeedbackType>,
    feedbackTime: Option<Instant>,
    nextScheduledTime: Option<Instant>,
    isCompleted: bool,
    source: IntakeSource
  )

  /** A new, not yet taken intake at `scheduledTime`, with every other field at its default. */
  function NewScheduledIntake(scheduledTime: Instant): MedicationIntake {
    MedicationIntake(0, scheduledTime, None, None, None, None, false, Scheduled)
  }

  /**
   * The columns of a medication_intakes row that the entity class carries:
   * instants as epoch milliseconds, the feedback as its enum name. The
   * `source` column is not among them.
   */
  datatype IntakeEntity = IntakeEntity(
    id: int,
    scheduledTimeEpoch: int,
    actualTimeEpoch: Option<int>,
    feedbackType: Option<string>,
    feedbackTimeEpoch: Option<int>,
    nextScheduledTimeEpoch: Option<int>,
    isCompleted: bool
  )
}
