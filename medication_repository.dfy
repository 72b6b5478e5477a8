/**
 * MedicationRepositoryImpl.kt: the domain-facing repository over the intake
 * table. Every read maps rows through `toDomain`, every write maps through
 * `toEntity` or writes `FeedbackType.name`, so the table only ever holds
 * feedback names that `valueOf` accepts and no read can throw.
 */
module Repository {
  import opened Wrappers
  import opened ScheduleConfigs
  import opened Intakes
  import opened IntakeMappers
  import opened Dao

  /** Every row's feedback name decodes. */
  ghost predicate AllDecodable(t: Table) {
    forall k :: k in t ==> Decodable(t[k].entity)
  }

  /** `m` is what `toDomain` makes of the row stored under `m.id`. */
  ghost predicate ReadsAs(t: Table, m: MedicationIntake) {
    m.id in t && ToDomain(t[m.id].entity) == Some(m)
  }

  ghost predicate DistinctIntakeIds(ms: seq<MedicationIntake>) {
    forall i, j :: 0 <= i < j < |ms| ==> ms[i].id != ms[j].id
  }

  ghost predicate SortedByScheduledTimeDesc(ms: seq<MedicationIntake>) {
    forall i, j :: 0 <= i < j < |ms| ==> ms[i].scheduledTime >= ms[j].scheduledTime
  }

  ghost predicate SortedByScheduledTimeAsc(ms: seq<MedicationIntake>) {
    forall i, j :: 0 <= i < j < |ms| ==> ms[i].scheduledTime <= ms[j].scheduledTime
  }

  /** `entities.map { it.toDomain() }` over rows that all decode. */
  function ToDomainAll(es: seq<IntakeEntity>): (ms: seq<MedicationIntake>)
    requires forall e :: e in es ==> Decodable(e)
    ensures |ms| == |es|
    ensures forall i :: 0 <= i < |es| ==> ToDomain(es[i]) == Some(ms[i])
  {
    seq(|es|, i requires 0 <= i < |es| => ToDomain(es[i]).value)
  }

  /** `entity?.toDomain()` */
  function ToDomainOrNull(e: Option<IntakeEntity>): (r: Option<MedicationIntake>)
    requires e.Some? ==> Decodable(e.value)
    ensures r.Some? <==> e.Some?
    ensures r.Some? ==> ToDomain(e.value) == r
  {
    if e.Some? then ToDomain(e.value) else None
  }

  /**
   * What `updateScheduledTime` does to the table: the row stored under `id`
   * gets a new scheduled time and keeps every other column; without such a
   * row nothing changes.
   */
  function Reschedule(t: Table, id: int, scheduledTimeEpoch: int): (r: Table)
    ensures r.Keys == t.Keys
    ensures id in t ==> r[id] == t[id].(entity := t[id].entity.(scheduledTimeEpoch := scheduledTimeEpoch))
    ensures forall k :: k in t && k != id ==> r[k] == t[k]
  {
    if id in t then t[id := t[id].(entity := t[id].entity.(scheduledTimeEpoch := scheduledTimeEpoch))] else t
  }

  /** Rescheduling keeps every row decodable and changes only the scheduled time of the intake read back. */
  lemma RescheduledIntakeReadsBack(t: Table, id: int, scheduledTime: int)
    requires KeyedById(t) && AllDecodable(t) && id in t
    ensures KeyedById(Reschedule(t, id, scheduledTime)) && AllDecodable(Reschedule(t, id, scheduledTime))
    ensures ReadsAs(Reschedule(t, id, scheduledTime), ToDomain(t[id].entity).value.(scheduledTime := scheduledTime))
  {
  }

  /** An inserted intake reads back as itself, under its assigned id and with the default source. */
  lemma InsertedIntakeReadsBack(t: Table, m: MedicationIntake, id: int)
    requires AllDecodable(t)
    ensures AllDecodable(Replace(t, ToEntity(m), id))
    ensures ReadsAs(Replace(t, ToEntity(m), id), m.(id := id, source := Scheduled))
  {
    DomainRoundTrip(m);
  }

  /** After an update the row reads back as the update, with the default source. */
  lemma UpdatedIntakeReadsBack(t: Table, m: MedicationIntake)
    requires AllDecodable(t)
    ensures AllDecodable(Update(t, ToEntity(m)))
    ensures m.id in t ==> ReadsAs(Update(t, ToEntity(m)), m.(source := Scheduled))
  {
    DomainRoundTrip(m);
  }

  /** Submitting feedback records the type and the time and clears the next scheduled time; nothing else of the intake changes. */
  lemma SubmittedFeedbackReadsBack(t: Table, id: int, feedback: FeedbackType, feedbackTime: int)
    requires KeyedById(t) && AllDecodable(t) && id in t
    ensures AllDecodable(SetFeedback(t, id, FeedbackTypeName(feedback), feedbackTime, None))
    ensures ReadsAs(SetFeedback(t, id, FeedbackTypeName(feedback), feedbackTime, None),
      ToDomain(t[id].entity).value.(feedback := Some(feedback), feedbackTime := Some(feedbackTime), nextScheduledTime := None))
  {
    assert FeedbackTypeValueOf(FeedbackTypeName(feedback)) == Some(feedback);
  }

  /** Marking an intake taken records the actual time and completes it; nothing else of the intake changes. */
  lemma MarkedIntakeReadsBack(t: Table, id: int, actualTime: int)
    requires KeyedById(t) && AllDecodable(t) && id in t
    ensures AllDecodable(MarkTaken(t, id, actualTime))
    ensures ReadsAs(MarkTaken(t, id, actualTime),
      ToDomain(t[id].entity).value.(actualTime := Some(actualTime), isCompleted := true))
  {
  }

  class MedicationRepositoryImpl {
    const intakeDao: IntakeDao

    ghost predicate Valid()
      reads this, intakeDao
    {
      intakeDao.Valid() && AllDecodable(intakeDao.rows)
    }

    constructor (intakeDao: IntakeDao)
      requires intakeDao.Valid() && AllDecodable(intakeDao.rows)
      ensures this.intakeDao == intakeDao && Valid()
    {
      this.intakeDao := intakeDao;
    }

    /** Every intake once, latest scheduled first. */
    method GetAllIntakes() returns (ms: seq<MedicationIntake>)
      requires Valid()
      ensures |ms| == |intakeDao.rows|
      ensures forall m :: m in ms ==> ReadsAs(intakeDao.rows, m)
      ensures forall k :: k in intakeDao.rows ==> ToDomain(intakeDao.rows[k].entity).value in ms
      ensures DistinctIntakeIds(ms)
      ensures SortedByScheduledTimeDesc(ms)
    {
      var es := intakeDao.GetAllIntakes();
      ms := ToDomainAll(es);
      forall m | m in ms ensures ReadsAs(intakeDao.rows, m) {
        var i :| 0 <= i < |ms| && ms[i] == m;
        assert es[i] in es;
      }
      forall k | k in intakeDao.rows ensures ToDomain(intakeDao.rows[k].entity).value in ms {
        assert intakeDao.rows[k].entity in es;
        var i :| 0 <= i < |es| && es[i] == intakeDao.rows[k].entity;
        assert ms[i] == ToDomain(intakeDao.rows[k].entity).value;
      }
    }

    /** The intakes scheduled within [start, end], earliest first. */
    method GetIntakesBetween(start: int, end: int) returns (ms: seq<MedicationIntake>)
      requires Valid()
      ensures forall m :: m in ms ==> ReadsAs(intakeDao.rows, m) && start <= m.scheduledTime <= end
      ensures forall k :: k in intakeDao.rows && start <= intakeDao.rows[k].entity.scheduledTimeEpoch <= end ==>
        ToDomain(intakeDao.rows[k].entity).value in ms
      ensures DistinctIntakeIds(ms)
      ensures SortedByScheduledTimeAsc(ms)
    {
      var es := intakeDao.GetIntakesBetween(start, end);
      ms := ToDomainAll(es);
      forall m | m in ms ensures ReadsAs(intakeDao.rows, m) && start <= m.scheduledTime <= end {
        var i :| 0 <= i < |ms| && ms[i] == m;
        assert es[i] in es;
      }
      forall k | k in intakeDao.rows && start <= intakeDao.rows[k].entity.scheduledTimeEpoch <= end
        ensures ToDomain(intakeDao.rows[k].entity).value in ms
      {
        assert intakeDao.rows[k].entity in es;
        var i :| 0 <= i < |es| && es[i] == intakeDao.rows[k].entity;
        assert ms[i] == ToDomain(intakeDao.rows[k].entity).value;
      }
    }

    function GetIntakeById(id: int): (r: Option<MedicationIntake>)
      reads this, intakeDao
      requires Valid()
      ensures r.Some? <==> id in intakeDao.rows
      ensures r.Some? ==> r.value.id == id && ReadsAs(intakeDao.rows, r.value)
    {
      ToDomainOrNull(intakeDao.GetIntakeById(id))
    }

    method GetLatestIntake() returns (r: Option<MedicationIntake>)
      requires Valid()
      ensures r.None? <==> intakeDao.rows == map[]
      ensures r.Some? ==> ReadsAs(intakeDao.rows, r.value)
      ensures r.Some? ==> forall k :: k in intakeDao.rows ==> intakeDao.rows[k].entity.scheduledTimeEpoch <= r.value.scheduledTime
    {
      var e := intakeDao.GetLatestIntake();
      r := ToDomainOrNull(e);
    }

    /** The incomplete intake scheduled earliest, if any. */
    method GetNextScheduledIntake() returns (r: Option<MedicationIntake>)
      requires Valid()
      ensures r.None? <==> forall k :: k in intakeDao.rows ==> !Pending(intakeDao.rows[k])
      ensures r.Some? ==> ReadsAs(intakeDao.rows, r.value) && IsNextScheduled(intakeDao.rows, intakeDao.rows[r.value.id].entity)
    {
      var e := intakeDao.GetNextScheduledIntake();
      r := ToDomainOrNull(e);
    }

    /** The scheduled intake taken last, if any (the value `getLastCompletedIntakeFlow` emits). */
    method GetLastCompletedIntake() returns (r: Option<MedicationIntake>)
      requires Valid()
      ensures r.None? <==> forall k :: k in intakeDao.rows ==> !TakenAsScheduled(intakeDao.rows[k])
      ensures r.Some? ==> ReadsAs(intakeDao.rows, r.value) && IsLastCompleted(intakeDao.rows, intakeDao.rows[r.value.id].entity)
    {
      var e := intakeDao.GetLastCompletedIntake();
      r := ToDomainOrNull(e);
    }

    method InsertIntake(intake: MedicationIntake) returns (id: int)
      requires Valid()
      modifies intakeDao
      ensures Valid()
      ensures id == if intake.id == 0 then old(intakeDao.lastId) + 1 else intake.id
      ensures intakeDao.rows == Replace(old(intakeDao.rows), ToEntity(intake), id)
      ensures intakeDao.lastId == if id > old(intakeDao.lastId) then id else old(intakeDao.lastId)
      ensures ReadsAs(intakeDao.rows, intake.(id := id, source := Scheduled))
    {
      InsertedIntakeReadsBack(intakeDao.rows, intake, if intake.id == 0 then intakeDao.lastId + 1 else intake.id);
      id := intakeDao.InsertIntake(ToEntity(intake));
    }

    method UpdateIntake(intake: MedicationIntake)
      requires Valid()
      modifies intakeDao
      ensures Valid() && intakeDao.lastId == old(intakeDao.lastId)
      ensures intakeDao.rows == Update(old(intakeDao.rows), ToEntity(intake))
      ensures intake.id in intakeDao.rows ==> ReadsAs(intakeDao.rows, intake.(source := Scheduled))
    {
      UpdatedIntakeReadsBack(intakeDao.rows, intake);
      intakeDao.UpdateIntake(ToEntity(intake));
    }

    method MarkIntakeTaken(intakeId: int, actualTime: int)
      requires Valid()
      modifies intakeDao
      ensures Valid() && intakeDao.lastId == old(intakeDao.lastId)
      ensures intakeDao.rows == MarkTaken(old(intakeDao.rows), intakeId, actualTime)
    {
      intakeDao.MarkIntakeTaken(intakeId, actualTime);
    }

    /** Read, copy with the new scheduled time, write back; an unknown id changes nothing. */
    method UpdateScheduledTime(intakeId: int, newScheduledTime: int)
      requires Valid()
      modifies intakeDao
      ensures Valid() && intakeDao.lastId == old(intakeDao.lastId)
      ensures intakeDao.rows == Reschedule(old(intakeDao.rows), intakeId, newScheduledTime)
    {
      var intake := intakeDao.GetIntakeById(intakeId);
      if intake.None? {
        return;
      }
      intakeDao.UpdateIntake(intake.value.(scheduledTimeEpoch := newScheduledTime));
    }

    /** Stores the feedback's name and time and clears the next scheduled time. */
    method SubmitFeedback(intakeId: int, feedback: FeedbackType, feedbackTime: int)
      requires Valid()
      modifies intakeDao
      ensures Valid() && intakeDao.lastId == old(intakeDao.lastId)
      ensures intakeDao.rows == SetFeedback(old(intakeDao.rows), intakeId, FeedbackTypeName(feedback), feedbackTime, None)
    {
      if intakeId in intakeDao.rows {
        SubmittedFeedbackReadsBack(intakeDao.rows, intakeId, feedback, feedbackTime);
      }
      intakeDao.SubmitFeedback(intakeId, FeedbackTypeName(feedback), feedbackTime, None);
    }

    /** Deletes by the intake's id alone. */
    method DeleteIntake(intake: MedicationIntake)
      requires Valid()
      modifies intakeDao
      ensures Valid() && intakeDao.lastId == old(intakeDao.lastId)
      ensures intakeDao.rows == Delete(old(intakeDao.rows), intake.id)
    {
      intakeDao.DeleteIntake(intake.id);
    }

    method DeleteAllIntakes()
      requires Valid()
      modifies intakeDao
      ensures Valid() && intakeDao.lastId == old(intakeDao.lastId)
      ensures intakeDao.rows == map[]
    {
      intakeDao.DeleteAll();
    }
  }
}
