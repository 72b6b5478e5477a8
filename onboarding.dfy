/**
 * The onboarding wizard (OnboardingViewModel.kt): five steps walked with
 * next/previous, the choices made on them, and the completion that stores
 * the settings and inserts the first scheduled intake. The clock and the
 * time zone are parameters; the settings store is the record returned.
 */
module Onboarding {
  import opened Wrappers
  import opened Time
  import opened ScheduleConfigs
  import opened MedicationTypes
  import opened Intakes
  import opened IntakeMappers
  import opened IntakeTimingCalculator
  import opened Dao
  import opened Repository

  const TotalSteps := 5

  datatype OnboardingState = OnboardingState(
    step: int,
    medicationType: MedicationType,
    selectedHour: int,
    selectedMinute: int,
    scheduleConfig: ScheduleConfig,
    isLoading: bool
  )

  const InitialState := OnboardingState(
    0, DefaultMedicationType,
    DefaultScheduleConfig.defaultIntakeTimeHour, DefaultScheduleConfig.defaultIntakeTimeMinute,
    DefaultScheduleConfig, false)

  /** The step lies on the wizard: 0 to TotalSteps - 1. */
  predicate OnStep(s: OnboardingState) {
    0 <= s.step < TotalSteps
  }

  /** `nextStep`: one step on unless already on the last step. */
  function StepForward(s: OnboardingState): (r: OnboardingState)
    ensures r == s.(step := r.step)
    ensures s.step < TotalSteps - 1 ==> r.step == s.step + 1
    ensures s.step >= TotalSteps - 1 ==> r == s
  {
    if s.step < TotalSteps - 1 then s.(step := s.step + 1) else s
  }

  /** `previousStep`: one step back unless already on the first step. */
  function StepBack(s: OnboardingState): (r: OnboardingState)
    ensures r == s.(step := r.step)
    ensures s.step > 0 ==> r.step == s.step - 1
    ensures s.step <= 0 ==> r == s
  {
    if s.step > 0 then s.(step := s.step - 1) else s
  }

  datatype Move = Next | Previous

  function ApplyMove(s: OnboardingState, m: Move): OnboardingState {
    match m
    case Next => StepForward(s)
    case Previous => StepBack(s)
  }

  /** The state after a sequence of next/previous presses. */
  function Run(s: OnboardingState, moves: seq<Move>): OnboardingState
    decreases |moves|
  {
    if moves == [] then s else Run(ApplyMove(s, moves[0]), moves[1..])
  }

  /** Any sequence of presses keeps the step on the wizard and changes nothing but the step. */
  lemma {:induction false} RunStaysOnWizard(s: OnboardingState, moves: seq<Move>)
    requires OnStep(s)
    ensures OnStep(Run(s, moves))
    ensures Run(s, moves) == s.(step := Run(s, moves).step)
    decreases |moves|
  {
    if moves != [] {
      RunStaysOnWizard(ApplyMove(s, moves[0]), moves[1..]);
    }
  }

  /** From the initial state, every reachable step is a wizard step. */
  lemma InitialRunStaysOnWizard(moves: seq<Move>)
    ensures OnStep(Run(InitialState, moves))
  {
    RunStaysOnWizard(InitialState, moves);
  }

  /** A press moves at most one step; `Next` never moves back and `Previous` never forward. */
  lemma {:induction false} RunMovesAtMostOnePerPress(s: OnboardingState, moves: seq<Move>)
    ensures s.step - |moves| <= Run(s, moves).step <= s.step + |moves|
    decreases |moves|
  {
    if moves != [] {
      RunMovesAtMostOnePerPress(ApplyMove(s, moves[0]), moves[1..]);
    }
  }

  /** Next on the last step and previous on the first are no-ops. */
  lemma BoundaryPressesAreNoOps(s: OnboardingState)
    ensures s.step == TotalSteps - 1 ==> StepForward(s) == s
    ensures s.step == 0 ==> StepBack(s) == s
  {
  }

  /** Back after a forward press that moved returns to the original state; likewise forward after back. */
  lemma BackUndoesForward(s: OnboardingState)
    requires OnStep(s)
    ensures StepForward(s) != s ==> StepBack(StepForward(s)) == s
    ensures StepBack(s) != s ==> StepForward(StepBack(s)) == s
  {
  }

  /** What `completeOnboarding` hands to the settings store. */
  datatype SavedSettings = SavedSettings(
    medicationType: MedicationType,
    currentIntakeTime: Instant,
    warningAccepted: bool,
    onboardingCompleted: bool,
    scheduleConfig: ScheduleConfig
  )

  /**
   * The first intake: today's selected time if that is still ahead of `now`,
   * otherwise the same time tomorrow.
   */
  method FirstScheduledInstant(now: Instant, hour: int, minute: int, offset: ZoneOffset) returns (scheduledInstant: Instant)
    requires ValidTimeOfDay(hour, minute)
    ensures now < scheduledInstant <= now + MillisPerDay
    ensures LocalHour(scheduledInstant, offset) == hour && LocalMinute(scheduledInstant, offset) == minute
    ensures var today := AtLocalTimeOnSameDay(now, hour, minute, offset);
      scheduledInstant == if today <= now then today + MillisPerDay else today
    ensures scheduledInstant == CalculateNextDefaultTime(now, hour, minute, offset)
  {
    scheduledInstant := AtLocalTimeOnSameDay(now, hour, minute, offset);
    if scheduledInstant <= now {
      scheduledInstant := PlusOneDay(scheduledInstant, offset);
    }
  }

  class OnboardingViewModel {
    var state: OnboardingState

    constructor ()
      ensures state == InitialState
    {
      state := InitialState;
    }

    method SetMedicationType(medicationType: MedicationType)
      modifies this
      ensures state == old(state).(medicationType := medicationType)
    {
      state := state.(medicationType := medicationType);
    }

    method SetHour(hour: int)
      modifies this
      ensures state == old(state).(selectedHour := hour)
    {
      state := state.(selectedHour := hour);
    }

    method SetMinute(minute: int)
      modifies this
      ensures state == old(state).(selectedMinute := minute)
    {
      state := state.(selectedMinute := minute);
    }

    method SetFeedbackDelayHours(hours: int)
      modifies this
      ensures state == old(state).(scheduleConfig := old(state).scheduleConfig.(feedbackDelayHours := hours))
    {
      state := state.(scheduleConfig := state.scheduleConfig.(feedbackDelayHours := hours));
    }

    method NextStep()
      modifies this
      ensures state == StepForward(old(state))
      ensures OnStep(old(state)) ==> OnStep(state)
    {
      var currentStep := state.step;
      if currentStep < TotalSteps - 1 {
        state := state.(step := currentStep + 1);
      }
    }

    method PreviousStep()
      modifies this
      ensures state == StepBack(old(state))
      ensures OnStep(old(state)) ==> OnStep(state)
    {
      var currentStep := state.step;
      if currentStep > 0 {
        state := state.(step := currentStep - 1);
      }
    }

    /**
     * `completeOnboarding`. With a selected time `LocalTime` rejects, the
     * coroutine stops by exception after raising the loading flag: `saved` is
     * None and nothing is written. Otherwise the settings are saved, the
     * first intake is inserted, and the flag comes down again; `loadingWhileSaving`
     * records the flag while the stores were written.
     */
    method CompleteOnboarding(now: Instant, offset: ZoneOffset, repository: MedicationRepositoryImpl)
      returns (saved: Option<SavedSettings>, ghost loadingWhileSaving: bool)
      requires repository.Valid()
      modifies this, repository.intakeDao
      ensures repository.Valid()
      ensures saved.None? <==> !ValidTimeOfDay(old(state).selectedHour, old(state).selectedMinute)
      ensures saved.None? ==>
        && state == old(state).(isLoading := true)
        && repository.intakeDao.rows == old(repository.intakeDao.rows)
        && repository.intakeDao.lastId == old(repository.intakeDao.lastId)
      ensures saved.Some? ==>
        var firstIntake := CalculateNextDefaultTime(now, old(state).selectedHour, old(state).selectedMinute, offset);
        && loadingWhileSaving
        && state == old(state).(isLoading := false)
        && saved.value == SavedSettings(
             old(state).medicationType, firstIntake, true, true,
             old(state).scheduleConfig.(defaultIntakeTimeHour := old(state).selectedHour,
                                        defaultIntakeTimeMinute := old(state).selectedMinute))
        && repository.intakeDao.rows ==
             Replace(old(repository.intakeDao.rows), ToEntity(NewScheduledIntake(firstIntake)), old(repository.intakeDao.lastId) + 1)
        && repository.intakeDao.lastId == old(repository.intakeDao.lastId) + 1
    {
      state := state.(isLoading := true);
      loadingWhileSaving := state.isLoading;
      if !ValidTimeOfDay(state.selectedHour, state.selectedMinute) {
        saved := None;
        return;
      }
      var scheduledInstant := FirstScheduledInstant(now, state.selectedHour, state.selectedMinute, offset);
      var config := state.scheduleConfig.(
        defaultIntakeTimeHour := state.selectedHour,
        defaultIntakeTimeMinute := state.selectedMinute);
      saved := Some(SavedSettings(state.medicationType, scheduledInstant, true, true, config));
      var intake := NewScheduledIntake(scheduledInstant);
      var _ := repository.InsertIntake(intake);
      state := state.(isLoading := false);
    }
  }
}
