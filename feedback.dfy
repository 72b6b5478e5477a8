/**
 * The post-intake feedback screen (FeedbackViewModel.kt): loading the
 * intake, choosing a feedback (which pushes the next intake back by the
 * feedback's delay), and submitting it. The settings store's schedule
 * config, the clock and the time zone are parameters.
 */
module Feedback {
  import opened Wrappers
  import opened Time
  import opened ScheduleConfigs
  import opened Intakes
  import opened IntakeTimingCalculator
  import opened Dao
  import opened Repository

  datatype FeedbackState = FeedbackState(
    intake: Option<MedicationIntake>,
    selectedFeedback: Option<FeedbackType>,
    nextScheduledTime: Option<Instant>,
    scheduleConfig: ScheduleConfig,
    isLoading: bool,
    isSubmitting: bool
  )

  const InitialFeedbackState := FeedbackState(None, None, None, DefaultScheduleConfig, true, false)

  /**
   * `selectFeedback`: without a next scheduled time nothing changes, not even
   * the selection; otherwise the selection is recorded and the next time
   * moves later by the feedback's delay, counted from the time already shown.
   */
  function AfterSelect(s: FeedbackState, feedback: FeedbackType, offset: ZoneOffset): (r: FeedbackState)
    ensures s.nextScheduledTime.None? ==> r == s
    ensures s.nextScheduledTime.Some? ==>
      && r == s.(selectedFeedback := Some(feedback), nextScheduledTime := r.nextScheduledTime)
      && r.nextScheduledTime.Some?
      && r.nextScheduledTime.value - s.nextScheduledTime.value == Hours(12 * Severity(feedback))
  {
    match s.nextScheduledTime
    case None => s
    case Some(currentNextTime) =>
      var delayHours := GetDelayHoursForFeedback(s.scheduleConfig, feedback);
      s.(selectedFeedback := Some(feedback),
         nextScheduledTime := Some(ApplyFeedbackDelay(currentNextTime, delayHours, offset)))
  }

  /** The state after choosing each feedback of `fs` in turn. */
  function SelectAll(s: FeedbackState, fs: seq<FeedbackType>, offset: ZoneOffset): FeedbackState
    decreases |fs|
  {
    if fs == [] then s else SelectAll(AfterSelect(s, fs[0], offset), fs[1..], offset)
  }

  /** The sum of the delays of the feedbacks in `fs`. */
  function TotalDelayHours(config: ScheduleConfig, fs: seq<FeedbackType>): (h: int)
    ensures h >= 0
    decreases |fs|
  {
    if fs == [] then 0 else GetDelayHoursForFeedback(config, fs[0]) + TotalDelayHours(config, fs[1..])
  }

  /** Choosing GOOD records the choice and leaves the next time where it was. */
  lemma GoodKeepsNextTime(s: FeedbackState, offset: ZoneOffset)
    requires s.nextScheduledTime.Some?
    ensures AfterSelect(s, Good, offset) == s.(selectedFeedback := Some(Good))
  {
  }

  /** Changing one's mind adds up: DIZZY twice moves the next intake a full day, not twelve hours. */
  lemma DizzyTwiceAddsADay(s: FeedbackState, offset: ZoneOffset)
    requires s.nextScheduledTime.Some?
    ensures AfterSelect(AfterSelect(s, Dizzy, offset), Dizzy, offset).nextScheduledTime
      == Some(s.nextScheduledTime.value + MillisPerDay)
  {
  }

  /**
   * Any sequence of choices moves the next time by the sum of their delays;
   * the last choice is the one selected, and nothing else of the state changes.
   */
  lemma {:induction false} SelectionsAccumulate(s: FeedbackState, fs: seq<FeedbackType>, offset: ZoneOffset)
    requires s.nextScheduledTime.Some?
    ensures SelectAll(s, fs, offset).nextScheduledTime == Some(s.nextScheduledTime.value + Hours(TotalDelayHours(s.scheduleConfig, fs)))
    ensures fs != [] ==> SelectAll(s, fs, offset).selectedFeedback == Some(fs[|fs| - 1])
    ensures fs == [] ==> SelectAll(s, fs, offset) == s
    ensures SelectAll(s, fs, offset) == s.(selectedFeedback := SelectAll(s, fs, offset).selectedFeedback,
                                           nextScheduledTime := SelectAll(s, fs, offset).nextScheduledTime)
    decreases |fs|
  {
    if fs != [] {
      var s1 := AfterSelect(s, fs[0], offset);
      SelectionsAccumulate(s1, fs[1..], offset);
      assert fs[1..] != [] ==> fs[1..][|fs[1..]| - 1] == fs[|fs| - 1];
    }
  }

  /** Without a next time, no sequence of choices changes anything. */
  lemma {:induction false} NoNextTimeIgnoresSelections(s: FeedbackState, fs: seq<FeedbackType>, offset: ZoneOffset)
    requires s.nextScheduledTime.None?
    ensures SelectAll(s, fs, offset) == s
    decreases |fs|
  {
    if fs != [] {
      NoNextTimeIgnoresSelections(AfterSelect(s, fs[0], offset), fs[1..], offset);
    }
  }

  /** The submit button does something only once an intake, a choice and a next time are all present. */
  predicate CanSubmit(s: FeedbackState) {
    s.intake.Some? && s.selectedFeedback.Some? && s.nextScheduledTime.Some?
  }

  /**
   * The table after a submission: the feedback lands on the intake's row, and
   * the intake then next in line, if any, is moved to the chosen next time.
   */
  ghost predicate SubmittedAs(before: Table, after: Table, intakeId: int, feedback: FeedbackType, feedbackTime: Instant, nextTime: Instant) {
    var withFeedback := SetFeedback(before, intakeId, FeedbackTypeName(feedback), feedbackTime, None);
    if forall k :: k in withFeedback ==> !Pending(withFeedback[k]) then
      after == withFeedback
    else
      exists k :: k in withFeedback && IsNextScheduled(withFeedback, withFeedback[k].entity)
        && after == Reschedule(withFeedback, k, nextTime)
  }

  class FeedbackViewModel {
    var state: FeedbackState

    constructor ()
      ensures state == InitialFeedbackState
    {
      state := InitialFeedbackState;
    }

    /** `loadIntake`: the intake, the config and the time of the intake next in line. */
    method LoadIntake(intakeId: int, config: ScheduleConfig, repository: MedicationRepositoryImpl)
      requires repository.Valid()
      modifies this
      ensures state.intake == repository.GetIntakeById(intakeId)
      ensures state == old(state).(intake := state.intake, scheduleConfig := config,
                                   nextScheduledTime := state.nextScheduledTime, isLoading := false)
      ensures state.nextScheduledTime.None? <==> forall k :: k in repository.intakeDao.rows ==> !Pending(repository.intakeDao.rows[k])
      ensures state.nextScheduledTime.Some? ==>
        exists k :: k in repository.intakeDao.rows
          && IsNextScheduled(repository.intakeDao.rows, repository.intakeDao.rows[k].entity)
          && repository.intakeDao.rows[k].entity.scheduledTimeEpoch == state.nextScheduledTime.value
    {
      var intake := repository.GetIntakeById(intakeId);
      var nextScheduledIntake := repository.GetNextScheduledIntake();
      var nextTime := if nextScheduledIntake.Some? then Some(nextScheduledIntake.value.scheduledTime) else None;
      state := state.(intake := intake, scheduleConfig := config, nextScheduledTime := nextTime, isLoading := false);
      if nextScheduledIntake.Some? {
        var k := nextScheduledIntake.value.id;
        assert k in repository.intakeDao.rows
          && IsNextScheduled(repository.intakeDao.rows, repository.intakeDao.rows[k].entity);
      }
    }

    method SelectFeedback(feedback: FeedbackType, offset: ZoneOffset)
      modifies this
      ensures state == AfterSelect(old(state), feedback, offset)
    {
      if state.nextScheduledTime.None? {
        return;
      }
      var currentNextTime := state.nextScheduledTime.value;
      var delayHours := GetDelayHoursForFeedback(state.scheduleConfig, feedback);
      var finalNextTime := ApplyFeedbackDelay(currentNextTime, delayHours, offset);
      state := state.(selectedFeedback := Some(feedback), nextScheduledTime := Some(finalNextTime));
    }

    /**
     * `submitFeedback`. Returns whether the submission was launched; when it
     * was, `submittingWhileWriting` records the flag while the repository was
     * written.
     */
    method SubmitFeedback(now: Instant, repository: MedicationRepositoryImpl)
      returns (launched: bool, ghost submittingWhileWriting: bool)
      requires repository.Valid()
      modifies this, repository.intakeDao
      ensures repository.Valid()
      ensures repository.intakeDao.lastId == old(repository.intakeDao.lastId)
      ensures launched <==> CanSubmit(old(state))
      ensures !launched ==> state == old(state) && repository.intakeDao.rows == old(repository.intakeDao.rows)
      ensures launched ==>
        && submittingWhileWriting
        && state == old(state).(isSubmitting := false)
        && SubmittedAs(old(repository.intakeDao.rows), repository.intakeDao.rows, old(state).intake.value.id,
                       old(state).selectedFeedback.value, now, old(state).nextScheduledTime.value)
    {
      submittingWhileWriting := false;
      if state.intake.None? || state.selectedFeedback.None? || state.nextScheduledTime.None? {
        return false, submittingWhileWriting;
      }
      var intake := state.intake.value;
      var feedback := state.selectedFeedback.value;
      var nextTime := state.nextScheduledTime.value;
      launched := true;

      state := state.(isSubmitting := true);
      submittingWhileWriting := state.isSubmitting;
      repository.SubmitFeedback(intake.id, feedback, now);
      ghost var withFeedback := repository.intakeDao.rows;
      var nextIntake := repository.GetNextScheduledIntake();
      if nextIntake.Some? {
        repository.UpdateScheduledTime(nextIntake.value.id, nextTime);
        assert nextIntake.value.id in withFeedback
          && IsNextScheduled(withFeedback, withFeedback[nextIntake.value.id].entity)
          && repository.intakeDao.rows == Reschedule(withFeedback, nextIntake.value.id, nextTime);
      }
      state := state.(isSubmitting := false);
    }
  }
}
