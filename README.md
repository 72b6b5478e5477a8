# Guanfancy core, modelled in Dafny

Guanfancy is an Android app that helps people taking guanfacine (Intuniv,
Tenex) time their meals around their doses. This project models its core
logic and proves properties of it:

- the **food zone** at a given moment: RED, YELLOW or GREEN, from the time
  since the last intake and the time until the next one (`FoodZoneCalculator`);
- the **hourly timeline**: the zone shown for each hour of a day, from the
  intake hours of that day and the previous day's intake (`HourlyTimeline`);
- **intake timing**: the reschedule window around the default intake time,
  the next default time, and the delay a feedback adds (`IntakeTimingCalculator`);
- the **configuration values**: food-zone presets per medication, the
  schedule config and the feedback delays (`FoodZones`, `MedicationTypes`,
  `ScheduleConfigs`);
- the **intake store**: the medication_intakes table and its statements as a
  class over a map from id to row (`Dao`), the mapping between rows and
  domain intakes (`IntakeMappers`), and the repository on top (`Repository`);
- the two **view-models** that change state: the onboarding wizard
  (`Onboarding`) and the feedback screen (`Feedback`), each a class whose
  methods are proved against pure functions on the screen state.

Time is an integer count of epoch milliseconds. The time zone is a fixed
offset in milliseconds, and local time of day is `(t + offset) mod 86 400 000`.
The clock, the time zone and the settings store are parameters: the
view-models get `now` and the offset from the caller, and
`CompleteOnboarding` returns the settings it would store.

Behaviours of the code that a reader may not expect:

- A last intake time in the future gives RED, because the negative elapsed
  time is below the red threshold (`FoodZoneCalculator.FutureIntakeIsRed`).
  The app's zone legend (`FoodZoneExplanation.kt` 53-69) does not cover
  this case.
- The hourly timeline compares whole hours with `<=`, so exactly 3 hours
  after an Intuniv intake is RED on the timeline. The live calculator uses
  `<` and gives YELLOW (`HourlyTimeline.BoundaryDiffersFromInstant`). The
  app's zone legend puts "3-5h after intake" in the yellow band, which
  matches the live calculator, not the timeline.
- The reschedule window looks only at today's default time. If the default
  time is just after midnight, a moment just before midnight is outside the
  window even though tomorrow's default time is close.
- Nothing in the app ever stores a MANUAL source. The entity class has no
  source column, an insert (`INSERT OR REPLACE`) writes the column's default
  SCHEDULED, and `toDomain` always yields SCHEDULED. So the `source =
  'SCHEDULED'` filter of the last-completed query never excludes a row
  (`Dao.StatementsKeepDefaultSource`, `IntakeMappers.SourceIsLost`).

## Model

| member | source | states |
|---|---|---|
| Time.AtLocalTimeOnSameDay | app/src/main/java/com/guanfancy/app/domain/model/IntakeTimingCalculator.kt:26-29 | lies on the local day of the given instant and has exactly the requested local hour and minute |
| Time.PlusOneDay | app/src/main/java/com/guanfancy/app/domain/model/IntakeTimingCalculator.kt:33 | is 24 hours later and has the same local time of day (fixed offset) |
| FoodZones.Rank | app/src/main/java/com/guanfancy/app/ui/components/HourlyTimeline.kt:147-153 | orders zones RED 0 < YELLOW 1 < GREEN 2; rank 0 exactly for RED and 2 exactly for GREEN |
| FoodZones.PresetsAreWellOrdered | app/src/main/java/com/guanfancy/app/domain/model/FoodZoneConfig.kt:10-24 | the Intuniv preset is (5, 3, 3, 5), the Tenex preset (5, 3, 1, 2), the default is Intuniv, and both have red before yellow on each side |
| MedicationTypes.GetFoodZoneConfig | app/src/main/java/com/guanfancy/app/domain/model/MedicationType.kt:13-16 | each medication gets its own preset, and every preset is well ordered |
| MedicationTypes.FromString | app/src/main/java/com/guanfancy/app/domain/model/MedicationType.kt:21-24 | the result is TENEX exactly when the stored value is "TENEX"; null and any other text give INTUNIV |
| MedicationTypes.FromStringRoundTrip | app/src/main/java/com/guanfancy/app/domain/model/MedicationType.kt:18-24 | parsing the name of a medication type gives that type back |
| ScheduleConfigs.FeedbackTypeValueOf | app/src/main/java/com/guanfancy/app/data/local/entity/IntakeMappers.kt:12 | accepts exactly the three enum names and returns the constant with that name |
| ScheduleConfigs.GetDelayHoursForFeedback | app/src/main/java/com/guanfancy/app/domain/model/ScheduleConfig.kt:8-14 | the delay is 0 exactly for GOOD, 12 for DIZZY, 24 for TOO_DIZZY, never above 24 |
| ScheduleConfigs.DelayMonotoneInSeverity | app/src/main/java/com/guanfancy/app/domain/model/ScheduleConfig.kt:8-20 | a worse feedback never gets a shorter delay, and the delay does not depend on the config |
| ScheduleConfigs.ScheduleDefaults | app/src/main/java/com/guanfancy/app/domain/model/ScheduleConfig.kt:3-21 | the default config is 12 h delay at 08:00 and the reschedule window is 2 hours |
| FoodZoneCalculator.AfterZone | app/src/main/java/com/guanfancy/app/domain/model/FoodZoneCalculator.kt:23-33 | no zone without a last intake; RED exactly while under redHoursAfter have passed; no zone exactly once both thresholds are reached; never GREEN |
| FoodZoneCalculator.BeforeZone | app/src/main/java/com/guanfancy/app/domain/model/FoodZoneCalculator.kt:35-45 | no zone without a next intake; RED exactly while under yellowHoursBefore remain; no zone exactly once greenHoursBefore remain; never GREEN |
| FoodZoneCalculator.Combine | app/src/main/java/com/guanfancy/app/domain/model/FoodZoneCalculator.kt:16-20 | the result is the more restrictive of the two sub-zones, an absent one counting as GREEN |
| FoodZoneCalculator.CombineSymmetric | app/src/main/java/com/guanfancy/app/domain/model/FoodZoneCalculator.kt:16-20 | the order of the two sub-zones does not matter |
| FoodZoneCalculator.Calculate | app/src/main/java/com/guanfancy/app/domain/model/FoodZoneCalculator.kt:7-21 | GREEN with no intakes at all; exactly the more restrictive of the after-zone and the before-zone, an absent one counting as GREEN |
| FoodZoneCalculator.CalculateSplits | app/src/main/java/com/guanfancy/app/domain/model/FoodZoneCalculator.kt:13-20 | the zone is RED if either side is RED, else YELLOW if either side is YELLOW, else GREEN |
| FoodZoneCalculator.AfterBoundariesAreStrict | app/src/main/java/com/guanfancy/app/domain/model/FoodZoneCalculator.kt:26-31 | one millisecond before redHoursAfter is RED and at it YELLOW; one before yellowHoursAfter is YELLOW and at it GREEN |
| FoodZoneCalculator.BeforeBoundariesAreStrict | app/src/main/java/com/guanfancy/app/domain/model/FoodZoneCalculator.kt:38-43 | RED at or after the scheduled time; exactly yellowHoursBefore ahead is YELLOW, exactly greenHoursBefore ahead is GREEN |
| FoodZoneCalculator.FutureIntakeIsRed | app/src/main/java/com/guanfancy/app/domain/model/FoodZoneCalculator.kt:26-29 | a last intake time in the future gives RED |
| FoodZoneCalculator.AfterZoneRelaxesOverTime | app/src/main/java/com/guanfancy/app/domain/model/FoodZoneCalculator.kt:23-33 | as time passes after an intake the zone only becomes less restrictive |
| FoodZoneCalculator.BeforeZoneTightensOverTime | app/src/main/java/com/guanfancy/app/domain/model/FoodZoneCalculator.kt:35-45 | as a scheduled intake approaches the zone only becomes more restrictive |
| FoodZoneCalculator.ZoneTestScenarios | app/src/test/java/com/guanfancy/app/domain/service/FoodZoneServiceTest.kt:41-216 | the unit-test scenarios (2/4/6 h after or before an intake, both sides together, the exact 3 h and 5 h boundaries, a shorter config) give the zones the tests expect |
| HourlyTimeline.DisplayTime | app/src/main/java/com/guanfancy/app/ui/components/HourlyTimeline.kt:65-69 | a completed intake with an actual time shows that time; any other intake shows its scheduled time |
| HourlyTimeline.IntakeHours | app/src/main/java/com/guanfancy/app/ui/components/HourlyTimeline.kt:64-78 | one local hour per intake, in order, each the hour of its display time and within 0..23 |
| HourlyTimeline.PreviousIntakeHour | app/src/main/java/com/guanfancy/app/ui/components/HourlyTimeline.kt:80-85 | present exactly when there is a previous-day intake, and then the local hour of its display time |
| HourlyTimeline.ZoneRelativeToSingleIntake | app/src/main/java/com/guanfancy/app/ui/components/HourlyTimeline.kt:156-180 | RED at the intake hour; before it RED within yellowHoursBefore and GREEN beyond greenHoursBefore; after it RED within redHoursAfter and GREEN beyond yellowHoursAfter; boundaries inclusive |
| HourlyTimeline.PreviousDayZone | app/src/main/java/com/guanfancy/app/ui/components/HourlyTimeline.kt:137-145 | RED exactly when (24 - previous hour) + hour is at most redHoursAfter, GREEN exactly when it exceeds both thresholds |
| HourlyTimeline.Contributions | app/src/main/java/com/guanfancy/app/ui/components/HourlyTimeline.kt:130-145 | one zone per intake hour in order, then the previous-day zone when there is one |
| HourlyTimeline.MostRestrictive | app/src/main/java/com/guanfancy/app/ui/components/HourlyTimeline.kt:147-153 | GREEN for no zones; otherwise one of the zones, and no zone in the list is more restrictive |
| HourlyTimeline.CalculateFoodZoneForHour | app/src/main/java/com/guanfancy/app/ui/components/HourlyTimeline.kt:122-154 | the two loops (collect per-intake zones, take the lowest rank) compute the most restrictive contribution, or GREEN |
| HourlyTimeline.FoodZoneForHourIsMostRestrictive | app/src/main/java/com/guanfancy/app/ui/components/HourlyTimeline.kt:128-153 | the hour's zone is at least as restrictive as every intake's zone and the previous day's zone, and equals one of them when there is any |
| HourlyTimeline.MostRestrictiveDependsOnlyOnMembers | app/src/main/java/com/guanfancy/app/ui/components/HourlyTimeline.kt:147-153 | which zone wins depends only on which zones occur, not on their order or repetition |
| HourlyTimeline.FoodZoneForHourOrderIndependent | app/src/main/java/com/guanfancy/app/ui/components/HourlyTimeline.kt:122-154 | lists of intake hours with the same members give every hour the same zone |
| HourlyTimeline.ContributionsMembers | app/src/main/java/com/guanfancy/app/ui/components/HourlyTimeline.kt:130-145 | more intake hours contribute a superset of zones |
| HourlyTimeline.AddingIntakeNeverRelaxes | app/src/main/java/com/guanfancy/app/ui/components/HourlyTimeline.kt:132-153 | adding an intake never makes an hour less restrictive |
| HourlyTimeline.AddingPreviousDayNeverRelaxes | app/src/main/java/com/guanfancy/app/ui/components/HourlyTimeline.kt:137-153 | taking a previous-day intake into account never makes an hour less restrictive |
| HourlyTimeline.EmptyDayIsGreen | app/src/main/java/com/guanfancy/app/ui/components/HourlyTimeline.kt:128 | with no intakes and no previous-day intake every hour is GREEN |
| HourlyTimeline.PreviousDayZoneRelaxes | app/src/main/java/com/guanfancy/app/ui/components/HourlyTimeline.kt:138-143 | later hours are never more restrictive with respect to the previous day's intake |
| HourlyTimeline.IntunivTimelineExample | app/src/main/java/com/guanfancy/app/ui/components/HourlyTimeline.kt:156-180 | with an 08:00 intake and the Intuniv preset: 10 and 11 RED, 13 YELLOW, 14 GREEN, 05 RED, 04 YELLOW |
| HourlyTimeline.HourlyAtLeastAsRestrictiveAsInstant | app/src/main/java/com/guanfancy/app/ui/components/HourlyTimeline.kt:156-180 | a whole-hour distance of d is never less restrictive on the timeline than an elapsed d hours in the live zone calculator |
| HourlyTimeline.BoundaryDiffersFromInstant | app/src/main/java/com/guanfancy/app/ui/components/HourlyTimeline.kt:172-174 | exactly 3 hours after an Intuniv intake the timeline shows RED while the live calculator gives YELLOW |
| IntakeTimingCalculator.TodayDefaultInstant | app/src/main/java/com/guanfancy/app/domain/model/IntakeTimingCalculator.kt:26-29 | on the local day of now, with the default local time of day |
| IntakeTimingCalculator.CalculateNextDefaultTime | app/src/main/java/com/guanfancy/app/domain/model/IntakeTimingCalculator.kt:47-62 | strictly after now, at most a day later, with local hour and minute equal to the default |
| IntakeTimingCalculator.NextDefaultTimeIsEarliest | app/src/main/java/com/guanfancy/app/domain/model/IntakeTimingCalculator.kt:47-62 | no instant strictly between now and the result has the default local time |
| IntakeTimingCalculator.Calculate | app/src/main/java/com/guanfancy/app/domain/model/IntakeTimingCalculator.kt:20-45 | no prompt exactly when now is within 2 hours (inclusive) of today's default time; a next time is proposed exactly when there is no prompt, and it is the next default time |
| IntakeTimingCalculator.NextIntakeInsideWindow | app/src/main/java/com/guanfancy/app/domain/model/IntakeTimingCalculator.kt:36-42 | inside the window the next intake is today's default time while it is still ahead, tomorrow's otherwise |
| IntakeTimingCalculator.WindowScenario | app/src/main/java/com/guanfancy/app/domain/model/IntakeTimingCalculator.kt:20-45 | default 08:00 (UTC): at 09:30 no prompt and next is tomorrow 08:00; at 14:00 a prompt and no next time |
| IntakeTimingCalculator.ApplyFeedbackDelay | app/src/main/java/com/guanfancy/app/domain/model/IntakeTimingCalculator.kt:64-70 | the result is exactly delayHours hours after the base time |
| IntakeTimingCalculator.FeedbackDelayAdds | app/src/main/java/com/guanfancy/app/domain/model/IntakeTimingCalculator.kt:64-70 | a zero delay is the identity, two delays add up, and the time zone makes no difference |
| IntakeMappers.DecodeFeedback | app/src/main/java/com/guanfancy/app/data/local/entity/IntakeMappers.kt:12 | a null name decodes to no feedback; a name decodes exactly when it is one of the enum names, to the constant with that name |
| IntakeMappers.ToDomain | app/src/main/java/com/guanfancy/app/data/local/entity/IntakeMappers.kt:7-17 | fails exactly on a row whose feedback name is no FeedbackType; otherwise copies every field, the feedback decoded from its name, and the source is SCHEDULED |
| IntakeMappers.ToEntity | app/src/main/java/com/guanfancy/app/data/local/entity/IntakeMappers.kt:19-29 | copies every field, stores the feedback as its enum name (null for none), and the row always decodes |
| IntakeMappers.EntityRoundTrip | app/src/main/java/com/guanfancy/app/data/local/entity/IntakeMappers.kt:7-29 | a decodable row comes back unchanged from a trip through the domain model |
| IntakeMappers.DomainRoundTrip | app/src/main/java/com/guanfancy/app/data/local/entity/IntakeMappers.kt:7-29 | an intake comes back unchanged from a trip through the database, except that its source becomes SCHEDULED |
| IntakeMappers.SourceIsLost | app/src/main/java/com/guanfancy/app/data/local/entity/IntakeMappers.kt:19-29 | a MANUAL intake and the same intake marked SCHEDULED are stored and read back identically |
| Dao.Replace | app/src/main/java/com/guanfancy/app/data/local/dao/IntakeDao.kt:34-35 | the row under the id is the new entity with the default source; every other row is unchanged |
| Dao.Update | app/src/main/java/com/guanfancy/app/data/local/dao/IntakeDao.kt:37-38 | the row with the entity's id gets the new columns and keeps its source; other rows and a missing id change nothing |
| Dao.MarkTaken | app/src/main/java/com/guanfancy/app/data/local/dao/IntakeDao.kt:40-41 | only actualTimeEpoch and isCompleted of the one row change |
| Dao.SetFeedback | app/src/main/java/com/guanfancy/app/data/local/dao/IntakeDao.kt:43-44 | only feedbackType, feedbackTimeEpoch and nextScheduledTimeEpoch of the one row change |
| Dao.Delete | app/src/main/java/com/guanfancy/app/data/local/dao/IntakeDao.kt:46-47 | that row is gone and every other row is unchanged |
| Dao.StatementsKeepDefaultSource | app/src/main/java/com/guanfancy/app/data/local/dao/IntakeDao.kt:34-50 | if every row has the SCHEDULED source, every statement keeps it so |
| Dao.StatementsKeepKeys | app/src/main/java/com/guanfancy/app/data/local/dao/IntakeDao.kt:34-50 | every statement keeps each row stored under its own id |
| Dao.InsertByScheduledDesc | app/src/main/java/com/guanfancy/app/data/local/dao/IntakeDao.kt:13-14 | one longer, with exactly the old elements and the new one |
| Dao.InsertKeepsOrder | app/src/main/java/com/guanfancy/app/data/local/dao/IntakeDao.kt:13 | insertion keeps the list in descending scheduled order |
| Dao.InsertKeepsIdsDistinct | app/src/main/java/com/guanfancy/app/data/local/dao/IntakeDao.kt:13 | inserting an entity with a new id keeps the ids distinct |
| Dao.IntakeDao.constructor | app/src/main/java/com/guanfancy/app/data/local/dao/IntakeDao.kt:11-12 | starts with an empty table and counter |
| Dao.IntakeDao.GetAllIntakes | app/src/main/java/com/guanfancy/app/data/local/dao/IntakeDao.kt:13-14 | every stored row exactly once, nothing else, in descending scheduled order |
| Dao.IntakeDao.GetIntakesBetween | app/src/main/java/com/guanfancy/app/data/local/dao/IntakeDao.kt:16-17 | exactly the rows scheduled within [start, end], each once, in ascending scheduled order |
| Dao.IntakeDao.GetIntakeById | app/src/main/java/com/guanfancy/app/data/local/dao/IntakeDao.kt:19-20 | the row with that id, present exactly when the id is stored |
| Dao.IntakeDao.GetLatestIntake | app/src/main/java/com/guanfancy/app/data/local/dao/IntakeDao.kt:22-23 | empty exactly for an empty table; otherwise a stored row with the latest scheduled time |
| Dao.IntakeDao.GetNextScheduledIntake | app/src/main/java/com/guanfancy/app/data/local/dao/IntakeDao.kt:25-26 | empty exactly when every row is completed; otherwise an incomplete row scheduled no later than any other incomplete row |
| Dao.IntakeDao.GetLastCompletedIntake | app/src/main/java/com/guanfancy/app/data/local/dao/IntakeDao.kt:31-32 | empty exactly when no row is completed with an actual time and the SCHEDULED source; otherwise such a row taken last |
| Dao.IntakeDao.InsertIntake | app/src/main/java/com/guanfancy/app/data/local/dao/IntakeDao.kt:34-35 | id 0 takes the next counter value, any other id replaces its row; the table becomes Replace of the old one and the counter covers the id |
| Dao.IntakeDao.UpdateIntake | app/src/main/java/com/guanfancy/app/data/local/dao/IntakeDao.kt:37-38 | the table becomes Update of the old one |
| Dao.IntakeDao.MarkIntakeTaken | app/src/main/java/com/guanfancy/app/data/local/dao/IntakeDao.kt:40-41 | the table becomes MarkTaken of the old one |
| Dao.IntakeDao.SubmitFeedback | app/src/main/java/com/guanfancy/app/data/local/dao/IntakeDao.kt:43-44 | the table becomes SetFeedback of the old one |
| Dao.IntakeDao.DeleteIntake | app/src/main/java/com/guanfancy/app/data/local/dao/IntakeDao.kt:46-47 | the table becomes Delete of the old one |
| Dao.IntakeDao.DeleteAll | app/src/main/java/com/guanfancy/app/data/local/dao/IntakeDao.kt:49-50 | the table becomes empty; the counter stays |
| Repository.ToDomainAll | app/src/main/java/com/guanfancy/app/data/repository/MedicationRepositoryImpl.kt:21-23 | one domain intake per row, in order, each toDomain of its row |
| Repository.ToDomainOrNull | app/src/main/java/com/guanfancy/app/data/repository/MedicationRepositoryImpl.kt:36 | present exactly when the row is, and then toDomain of it |
| Repository.Reschedule | app/src/main/java/com/guanfancy/app/data/repository/MedicationRepositoryImpl.kt:70-74 | only the scheduled time of the one row changes; a missing id changes nothing |
| Repository.RescheduledIntakeReadsBack | app/src/main/java/com/guanfancy/app/data/repository/MedicationRepositoryImpl.kt:70-74 | after rescheduling, the intake reads back with the new time and nothing else changed |
| Repository.InsertedIntakeReadsBack | app/src/main/java/com/guanfancy/app/data/repository/MedicationRepositoryImpl.kt:55-57 | an inserted intake reads back as itself under its assigned id, with the SCHEDULED source |
| Repository.UpdatedIntakeReadsBack | app/src/main/java/com/guanfancy/app/data/repository/MedicationRepositoryImpl.kt:59-61 | an updated intake reads back as the update, with the SCHEDULED source |
| Repository.SubmittedFeedbackReadsBack | app/src/main/java/com/guanfancy/app/data/repository/MedicationRepositoryImpl.kt:76-83 | after feedback the intake reads back with that feedback and time and no next scheduled time, nothing else changed |
| Repository.MarkedIntakeReadsBack | app/src/main/java/com/guanfancy/app/data/repository/MedicationRepositoryImpl.kt:63-68 | after marking, the intake reads back completed at the actual time, nothing else changed |
| Repository.MedicationRepositoryImpl.constructor | app/src/main/java/com/guanfancy/app/data/repository/MedicationRepositoryImpl.kt:16-18 | wraps the given DAO |
| Repository.MedicationRepositoryImpl.GetAllIntakes | app/src/main/java/com/guanfancy/app/data/repository/MedicationRepositoryImpl.kt:20-24 | every stored intake once, each as its row reads, latest scheduled first |
| Repository.MedicationRepositoryImpl.GetIntakesBetween | app/src/main/java/com/guanfancy/app/data/repository/MedicationRepositoryImpl.kt:26-33 | exactly the intakes scheduled within [start, end], each once, earliest first |
| Repository.MedicationRepositoryImpl.GetIntakeById | app/src/main/java/com/guanfancy/app/data/repository/MedicationRepositoryImpl.kt:43-45 | the intake with that id, present exactly when it is stored |
| Repository.MedicationRepositoryImpl.GetLatestIntake | app/src/main/java/com/guanfancy/app/data/repository/MedicationRepositoryImpl.kt:47-49 | empty exactly for an empty table; otherwise an intake with the latest scheduled time |
| Repository.MedicationRepositoryImpl.GetNextScheduledIntake | app/src/main/java/com/guanfancy/app/data/repository/MedicationRepositoryImpl.kt:51-53 | empty exactly when all intakes are completed; otherwise the earliest incomplete one |
| Repository.MedicationRepositoryImpl.GetLastCompletedIntake | app/src/main/java/com/guanfancy/app/data/repository/MedicationRepositoryImpl.kt:39-41 | empty exactly when no scheduled intake was taken; otherwise the one taken last |
| Repository.MedicationRepositoryImpl.InsertIntake | app/src/main/java/com/guanfancy/app/data/repository/MedicationRepositoryImpl.kt:55-57 | the table gains the intake's row (replacing one with the same id) and the intake reads back under the returned id; the id counter advances to cover that id |
| Repository.MedicationRepositoryImpl.UpdateIntake | app/src/main/java/com/guanfancy/app/data/repository/MedicationRepositoryImpl.kt:59-61 | the row is overwritten with the intake's fields and reads back as the intake |
| Repository.MedicationRepositoryImpl.MarkIntakeTaken | app/src/main/java/com/guanfancy/app/data/repository/MedicationRepositoryImpl.kt:63-68 | only the actual time and completion of that row change |
| Repository.MedicationRepositoryImpl.UpdateScheduledTime | app/src/main/java/com/guanfancy/app/data/repository/MedicationRepositoryImpl.kt:70-74 | only the scheduled time of that row changes; an unknown id changes nothing |
| Repository.MedicationRepositoryImpl.SubmitFeedback | app/src/main/java/com/guanfancy/app/data/repository/MedicationRepositoryImpl.kt:76-83 | the feedback name and time are stored and the next scheduled time cleared |
| Repository.MedicationRepositoryImpl.DeleteIntake | app/src/main/java/com/guanfancy/app/data/repository/MedicationRepositoryImpl.kt:85-87 | the row with the intake's id is gone, whatever else the intake holds |
| Repository.MedicationRepositoryImpl.DeleteAllIntakes | app/src/main/java/com/guanfancy/app/data/repository/MedicationRepositoryImpl.kt:89-91 | the table becomes empty |
| Onboarding.StepForward | app/src/main/java/com/guanfancy/app/ui/screens/onboarding/OnboardingViewModel.kt:81-86 | moves one step on unless on the last step, where nothing changes; only the step changes |
| Onboarding.StepBack | app/src/main/java/com/guanfancy/app/ui/screens/onboarding/OnboardingViewModel.kt:88-93 | moves one step back unless on the first step, where nothing changes; only the step changes |
| Onboarding.RunStaysOnWizard | app/src/main/java/com/guanfancy/app/ui/screens/onboarding/OnboardingViewModel.kt:81-93 | any sequence of next/previous presses keeps the step within 0..4 and changes nothing else |
| Onboarding.InitialRunStaysOnWizard | app/src/main/java/com/guanfancy/app/ui/screens/onboarding/OnboardingViewModel.kt:28-34 | from the initial state no sequence of presses leaves steps 0..4 |
| Onboarding.RunMovesAtMostOnePerPress | app/src/main/java/com/guanfancy/app/ui/screens/onboarding/OnboardingViewModel.kt:81-93 | n presses move the step by at most n |
| Onboarding.BoundaryPressesAreNoOps | app/src/main/java/com/guanfancy/app/ui/screens/onboarding/OnboardingViewModel.kt:81-93 | next on step 4 and previous on step 0 leave the state unchanged |
| Onboarding.BackUndoesForward | app/src/main/java/com/guanfancy/app/ui/screens/onboarding/OnboardingViewModel.kt:81-93 | previous after a next that moved restores the state, and next after a previous that moved |
| Onboarding.FirstScheduledInstant | app/src/main/java/com/guanfancy/app/ui/screens/onboarding/OnboardingViewModel.kt:99-107 | strictly after now, at most a day later, at the selected local time: today's if still ahead, else tomorrow's; the same as the timing calculator's next default time |
| Onboarding.OnboardingViewModel.constructor | app/src/main/java/com/guanfancy/app/ui/screens/onboarding/OnboardingViewModel.kt:27-42 | step 0, Intuniv, 08:00, the default config, not loading |
| Onboarding.OnboardingViewModel.SetMedicationType | app/src/main/java/com/guanfancy/app/ui/screens/onboarding/OnboardingViewModel.kt:45-47 | only the medication type changes |
| Onboarding.OnboardingViewModel.SetHour | app/src/main/java/com/guanfancy/app/ui/screens/onboarding/OnboardingViewModel.kt:49-51 | only the selected hour changes |
| Onboarding.OnboardingViewModel.SetMinute | app/src/main/java/com/guanfancy/app/ui/screens/onboarding/OnboardingViewModel.kt:53-55 | only the selected minute changes |
| Onboarding.OnboardingViewModel.SetFeedbackDelayHours | app/src/main/java/com/guanfancy/app/ui/screens/onboarding/OnboardingViewModel.kt:75-79 | only the config's feedback delay changes |
| Onboarding.OnboardingViewModel.NextStep | app/src/main/java/com/guanfancy/app/ui/screens/onboarding/OnboardingViewModel.kt:81-86 | the state becomes StepForward of the old one and stays on the wizard |
| Onboarding.OnboardingViewModel.PreviousStep | app/src/main/java/com/guanfancy/app/ui/screens/onboarding/OnboardingViewModel.kt:88-93 | the state becomes StepBack of the old one and stays on the wizard |
| Onboarding.OnboardingViewModel.CompleteOnboarding | app/src/main/java/com/guanfancy/app/ui/screens/onboarding/OnboardingViewModel.kt:95-129 | with a valid time: the settings saved are the type, the first intake time, both flags and the config with the selected default time; one new scheduled intake at that time is inserted under the next counter id, which the counter advances to; loading was on during the writes and is off after. With an invalid time nothing is written and loading stays on |
| Feedback.AfterSelect | app/src/main/java/com/guanfancy/app/ui/screens/feedback/FeedbackViewModel.kt:58-75 | nothing changes without a next time; otherwise the choice is recorded and the next time moves later by exactly its delay, nothing else changing |
| Feedback.TotalDelayHours | app/src/main/java/com/guanfancy/app/ui/screens/feedback/FeedbackViewModel.kt:62 | the summed delay of a sequence of choices is never negative |
| Feedback.GoodKeepsNextTime | app/src/main/java/com/guanfancy/app/ui/screens/feedback/FeedbackViewModel.kt:62-74 | choosing GOOD only records the choice |
| Feedback.DizzyTwiceAddsADay | app/src/main/java/com/guanfancy/app/ui/screens/feedback/FeedbackViewModel.kt:59-74 | choosing DIZZY twice moves the next intake 24 hours |
| Feedback.SelectionsAccumulate | app/src/main/java/com/guanfancy/app/ui/screens/feedback/FeedbackViewModel.kt:58-75 | a sequence of choices moves the next time by the sum of their delays and leaves the last one selected |
| Feedback.NoNextTimeIgnoresSelections | app/src/main/java/com/guanfancy/app/ui/screens/feedback/FeedbackViewModel.kt:59 | without a next time, no sequence of choices changes anything |
| Feedback.FeedbackViewModel.constructor | app/src/main/java/com/guanfancy/app/ui/screens/feedback/FeedbackViewModel.kt:23-38 | no intake, no choice, no next time, the default config, loading |
| Feedback.FeedbackViewModel.LoadIntake | app/src/main/java/com/guanfancy/app/ui/screens/feedback/FeedbackViewModel.kt:41-56 | the intake is the one stored under the id, the config is the given one, the next time is that of the earliest incomplete intake (absent exactly when all are completed), loading ends |
| Feedback.FeedbackViewModel.SelectFeedback | app/src/main/java/com/guanfancy/app/ui/screens/feedback/FeedbackViewModel.kt:58-75 | the state becomes AfterSelect of the old one |
| Feedback.FeedbackViewModel.SubmitFeedback | app/src/main/java/com/guanfancy/app/ui/screens/feedback/FeedbackViewModel.kt:77-99 | runs exactly when intake, choice and next time are all present, otherwise changes nothing; then the feedback is stored on the intake, the intake next in line (if any) is moved to the chosen time, and the submitting flag was on during the writes and off after |

## Left out

- UI rendering: the composables, the `HourRow` layout, the current-hour marker and the intake lookup per row (`HourlyTimeline.kt` 87-111, 182 onward) are display only.
- Flow re-emission: `getNextScheduledIntakeFlow`, `getLastCompletedIntakeFlow`, `getAllIntakes` and `getIntakesBetween` return flows that re-run their query when the table changes; the model runs each query once. `getNextScheduledIntakeFlow` is the same query as `getNextScheduledIntake`.
- Coroutines: each `viewModelScope.launch` body runs to completion without interleaving, and `onComplete` is the method returning.
- The settings store (`SettingsRepository`, `AppPreferences`), notifications and alarms, dependency injection and `MainActivity` are I/O and wiring, not core logic.
- Floating point: the elapsed-hours division in `FoodZoneCalculator.kt` is modelled as exact millisecond comparisons with whole-hour thresholds.
- Time zones are fixed offsets: daylight-saving transitions and `plus(1, DAY, zone)` across them are not modelled.
- Integer width: `Long` and `Int` are unbounded here. No operation of the core comes near their limits for real timestamps.
- `setGoodHours`, `setDizzyHours` and `setTooDizzyHours` (`OnboardingViewModel.kt` 57-73) write fields `ScheduleConfig` does not have, so they are not modelled.
- `MedicationType.displayName` and `description` are display strings.
- IntakeTimingCalculator.Calculate, CalculateNextDefaultTime and Onboarding.FirstScheduledInstant require a valid hour and minute; `LocalTime` throws otherwise. `CompleteOnboarding` models that throw: it writes nothing and leaves the loading flag on.
- IntakeMappers.ToDomain returns None where `FeedbackType.valueOf` throws. The repository's invariant shows no stored row can cause that.
- Dao.IntakeDao.GetAllIntakes, GetIntakesBetween, GetLatestIntake, GetNextScheduledIntake and GetLastCompletedIntake: SQL leaves the order of ties open, so their contracts state sorted order and "some extremal row" rather than one particular answer.
- Room's schema check and the migration mechanism (`AppDatabase.kt`) are left out; the table always has the `source` column with default SCHEDULED.
- The definitions of the `FoodZone`, `FeedbackType` and `IntakeSource` enums are not part of this model's sources; their constants are taken from their uses.
