/**
 * Conversion between database rows and domain intakes (IntakeMappers.kt).
 * Epoch milliseconds and instants are the same numbers here, so the mappers
 * copy every time field unchanged; the feedback goes through its enum name and
 * the source is not mapped at all.
 */
module IntakeMappers {
  import opened Wrappers
  import opened ScheduleConfigs
  import opened Intakes

  /** A stored feedback string that `FeedbackType.valueOf` accepts (or no feedback). */
  predicate Decodable(e: IntakeEntity) {
    e.feedbackType.None? || FeedbackTypeValueOf(e.feedbackType.value).Some?
  }

  /** `FeedbackType.valueOf` applied to an optional stored name. */
  function DecodeFeedback(s: Option<string>): (r: Option<Option<FeedbackType>>)
    ensures s.None? ==> r == Some(None)
    ensures s.Some? ==> (r.Some? <==> FeedbackTypeValueOf(s.value).Some?)
    ensures r.Some? && r.value.Some? ==> s == Some(FeedbackTypeName(r.value.value))
  {
    match s
    case None => Some(None)
    case Some(name) =>
      match FeedbackTypeValueOf(name)
      case Some(f) => Some(Some(f))
      case None => None
  }

  /**
   * `IntakeEntity.toDomain()`. `None` stands for the exception `valueOf` throws
   * on a feedback name that is no FeedbackType. The domain source is always
   * SCHEDULED, its default, whatever the row's source column holds.
   */
  function ToDomain(e: IntakeEntity): (r: Option<MedicationIntake>)
    ensures r.Some? <==> Decodable(e)
    ensures r.Some? ==>
      && r.value.id == e.id
      && r.value.scheduledTime == e.scheduledTimeEpoch
      && r.value.actualTime == e.actualTimeEpoch
      && r.value.feedbackTime == e.feedbackTimeEpoch
      && r.value.nextScheduledTime == e.nextScheduledTimeEpoch
      && r.value.isCompleted == e.isCompleted
      && Some(r.value.feedback) == DecodeFeedback(e.feedbackType)
      && r.value.source == Scheduled
  {
    match DecodeFeedback(e.feedbackType)
    case None => None
    case Some(feedback) =>
      Some(MedicationIntake(
        e.id, e.scheduledTimeEpoch, e.actualTimeEpoch, feedback,
        e.feedbackTimeEpoch, e.nextScheduledTimeEpoch, e.isCompleted, Scheduled))
  }

  /** `MedicationIntake.toEntity()`: every field but the source. */
  function ToEntity(m: MedicationIntake): (e: IntakeEntity)
    ensures Decodable(e)
    ensures e.id == m.id && e.scheduledTimeEpoch == m.scheduledTime && e.isCompleted == m.isCompleted
    ensures e.actualTimeEpoch == m.actualTime && e.feedbackTimeEpoch == m.feedbackTime
    ensures e.nextScheduledTimeEpoch == m.nextScheduledTime
    ensures e.feedbackType.None? <==> m.feedback.None?
    ensures m.feedback.Some? ==> e.feedbackType == Some(FeedbackTypeName(m.feedback.value))
  {
    var name := if m.feedback.Some? then Some(FeedbackTypeName(m.feedback.value)) else None;
    IntakeEntity(m.id, m.scheduledTime, m.actualTime, name, m.feedbackTime, m.nextScheduledTime, m.isCompleted)
  }

  /** A decodable row survives a trip through the domain model unchanged. */
  lemma EntityRoundTrip(e: IntakeEntity)
    requires Decodable(e)
    ensures ToDomain(e).Some? && ToEntity(ToDomain(e).value) == e
  {
  }

  /** A domain intake survives a trip through the database except for its source, which comes back SCHEDULED. */
  lemma DomainRoundTrip(m: MedicationIntake)
    ensures ToDomain(ToEntity(m)) == Some(m.(source := Scheduled))
  {
    if m.feedback.Some? {
      assert FeedbackTypeValueOf(FeedbackTypeName(m.feedback.value)) == m.feedback;
    }
  }

  /** A manual intake cannot be told apart from a scheduled one after the round trip. */
  lemma SourceIsLost(m: MedicationIntake)
    ensures ToDomain(ToEntity(m)) == ToDomain(ToEntity(m.(source := Manual)))
  {
    DomainRoundTrip(m);
    DomainRoundTrip(m.(source := Manual));
  }
}
