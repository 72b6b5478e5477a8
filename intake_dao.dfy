/**
 * The medication_intakes table and the statements of IntakeDao.kt.
 *
 * The table maps a row's primary key to the row. A row holds the entity's
 * columns and the `source` column, which the schema migration added with
 * DEFAULT 'SCHEDULED' and which the entity class does not carry: the queries
 * can filter on it, but no statement here ever writes it.
 */
module Dao {
  import opened Wrappers
  import opened Intakes

  datatype Row = Row(entity: IntakeEntity, source: IntakeSource)

  type Table = map<int, Row>

  /** Every row is stored under its own id. */
  ghost predicate KeyedById(t: Table) {
    forall id :: id in t ==> t[id].entity.id == id
  }

  /** `e` is, column for column, the entity part of a row of `t`. */
  ghost predicate Stored(t: Table, e: IntakeEntity) {
    e.id in t && t[e.id].entity == e
  }

  ghost predicate DistinctIds(es: seq<IntakeEntity>) {
    forall i, j :: 0 <= i < j < |es| ==> es[i].id != es[j].id
  }

  ghost predicate SortedByScheduledDesc(es: seq<IntakeEntity>) {
    forall i, j :: 0 <= i < j < |es| ==> es[i].scheduledTimeEpoch >= es[j].scheduledTimeEpoch
  }

  ghost predicate SortedByScheduledAsc(es: seq<IntakeEntity>) {
    forall i, j :: 0 <= i < j < |es| ==> es[i].scheduledTimeEpoch <= es[j].scheduledTimeEpoch
  }

  /** The rows `getNextScheduledIntake` chooses from. */
  predicate Pending(r: Row) {
    !r.entity.isCompleted
  }

  /** The rows `getLastCompletedIntakeFlow` chooses from. */
  predicate TakenAsScheduled(r: Row) {
    r.entity.isCompleted && r.entity.actualTimeEpoch.Some? && r.source == Scheduled
  }

  /** An incomplete row with the earliest scheduled time. */
  ghost predicate IsNextScheduled(t: Table, e: IntakeEntity) {
    && Stored(t, e) && Pending(t[e.id])
    && forall k :: k in t && Pending(t[k]) ==> e.scheduledTimeEpoch <= t[k].entity.scheduledTimeEpoch
  }

  /** A completed, scheduled row with an actual time, taken last. */
  ghost predicate IsLastCompleted(t: Table, e: IntakeEntity) {
    && Stored(t, e) && TakenAsScheduled(t[e.id])
    && forall k :: k in t && TakenAsScheduled(t[k]) ==>
         t[k].entity.actualTimeEpoch.value <= e.actualTimeEpoch.value
  }

  /** Every row still has the default source. */
  ghost predicate AllScheduled(t: Table) {
    forall k :: k in t ==> t[k].source == Scheduled
  }

  /**
   * `INSERT OR REPLACE` of `e` under key `id`: a row with that key is deleted
   * first, so the new row's source column takes its default.
   */
  function Replace(t: Table, e: IntakeEntity, id: int): (r: Table)
    ensures r.Keys == t.Keys + {id}
    ensures r[id] == Row(e.(id := id), Scheduled)
    ensures forall k :: k in t && k != id ==> r[k] == t[k]
  {
    t[id := Row(e.(id := id), Scheduled)]
  }

  /** `@Update`: overwrite the entity columns of the row with `e`'s id, keeping its source; no such row, no change. */
  function Update(t: Table, e: IntakeEntity): (r: Table)
    ensures r.Keys == t.Keys
    ensures e.id in t ==> r[e.id] == Row(e, t[e.id].source)
    ensures forall k :: k in t && k != e.id ==> r[k] == t[k]
  {
    if e.id in t then t[e.id := Row(e, t[e.id].source)] else t
  }

  /** `UPDATE ... SET actualTimeEpoch, isCompleted = 1 WHERE id`: two columns of one row. */
  function MarkTaken(t: Table, id: int, actualTimeEpoch: int): (r: Table)
    ensures r.Keys == t.Keys
    ensures id in t ==> r[id] == t[id].(entity := t[id].entity.(actualTimeEpoch := Some(actualTimeEpoch), isCompleted := true))
    ensures forall k :: k in t && k != id ==> r[k] == t[k]
  {
    if id in t then
      t[id := t[id].(entity := t[id].entity.(actualTimeEpoch := Some(actualTimeEpoch), isCompleted := true))]
    else t
  }

  /** `UPDATE ... SET feedbackType, feedbackTimeEpoch, nextScheduledTimeEpoch WHERE id`: three columns of one row. */
  function SetFeedback(t: Table, id: int, feedbackType: string, feedbackTimeEpoch: int, nextScheduledTimeEpoch: Option<int>): (r: Table)
    ensures r.Keys == t.Keys
    ensures id in t ==> r[id] == t[id].(entity := t[id].entity.(
      feedbackType := Some(feedbackType),
      feedbackTimeEpoch := Some(feedbackTimeEpoch),
      nextScheduledTimeEpoch := nextScheduledTimeEpoch))
    ensures forall k :: k in t && k != id ==> r[k] == t[k]
  {
    if id in t then
      t[id := t[id].(entity := t[id].entity.(
        feedbackType := Some(feedbackType),
        feedbackTimeEpoch := Some(feedbackTimeEpoch),
        nextScheduledTimeEpoch := nextScheduledTimeEpoch))]
    else t
  }

  /** `DELETE ... WHERE id`: that row and no other. */
  function Delete(t: Table, id: int): (r: Table)
    ensures r.Keys == t.Keys - {id}
    ensures forall k :: k in r ==> r[k] == t[k]
  {
    t - {id}
  }

  /** No statement of the DAO writes a source other than the default. */
  lemma StatementsKeepDefaultSource(t: Table, e: IntakeEntity, id: int, a: int, f: string, n: Option<int>)
    requires AllScheduled(t)
    ensures AllScheduled(Replace(t, e, id)) && AllScheduled(Update(t, e)) && AllScheduled(MarkTaken(t, id, a))
    ensures AllScheduled(SetFeedback(t, id, f, a, n)) && AllScheduled(Delete(t, id))
  {
  }

  /** Statements keep every row under its own id. */
  lemma StatementsKeepKeys(t: Table, e: IntakeEntity, id: int, a: int, f: string, n: Option<int>)
    requires KeyedById(t)
    ensures KeyedById(Replace(t, e, id)) && KeyedById(MarkTaken(t, id, a))
    ensures KeyedById(SetFeedback(t, id, f, a, n)) && KeyedById(Delete(t, id))
    ensures KeyedById(Update(t, e))
  {
  }

  /** A non-empty key set has a member to pick. */
  lemma HasMember(s: set<int>)
    requires s != {}
    ensures exists k :: k in s
  {
    if forall k :: k !in s {
      assert false;
    }
  }

  /** Insertion of `e` into a list ordered by descending scheduled time, after the rows scheduled later. */
  function InsertByScheduledDesc(e: IntakeEntity, es: seq<IntakeEntity>): (r: seq<IntakeEntity>)
    ensures |r| == |es| + 1
    ensures forall x :: x in r <==> x in es || x == e
  {
    if es == [] || es[0].scheduledTimeEpoch <= e.scheduledTimeEpoch then [e] + es
    else [es[0]] + InsertByScheduledDesc(e, es[1..])
  }

  /** Insertion keeps the list ordered. */
  lemma {:induction false} InsertKeepsOrder(e: IntakeEntity, es: seq<IntakeEntity>)
    requires SortedByScheduledDesc(es)
    ensures SortedByScheduledDesc(InsertByScheduledDesc(e, es))
  {
    if es != [] && es[0].scheduledTimeEpoch > e.scheduledTimeEpoch {
      var rest := InsertByScheduledDesc(e, es[1..]);
      InsertKeepsOrder(e, es[1..]);
      forall j | 0 <= j < |rest| ensures es[0].scheduledTimeEpoch >= rest[j].scheduledTimeEpoch {
        assert rest[j] in rest;
      }
    }
  }

  /** Insertion of an entity with a new id keeps the ids distinct. */
  lemma {:induction false} InsertKeepsIdsDistinct(e: IntakeEntity, es: seq<IntakeEntity>)
    requires DistinctIds(es) && forall x :: x in es ==> x.id != e.id
    ensures DistinctIds(InsertByScheduledDesc(e, es))
  {
    if es != [] && es[0].scheduledTimeEpoch > e.scheduledTimeEpoch {
      var rest := InsertByScheduledDesc(e, es[1..]);
      InsertKeepsIdsDistinct(e, es[1..]);
      forall j | 0 <= j < |rest| ensures es[0].id != rest[j].id {
        assert rest[j] in rest;
      }
    }
  }

  class IntakeDao {
    var rows: Table
    /** The AUTOINCREMENT counter: the largest id the table has handed out or been given. */
    var lastId: int

    ghost predicate Valid()
      reads this
    {
      && KeyedById(rows)
      && 0 <= lastId
      && forall id :: id in rows ==> id <= lastId
    }

    constructor ()
      ensures Valid() && rows == map[] && lastId == 0
    {
      rows := map[];
      lastId := 0;
    }

    /** `SELECT * ... ORDER BY scheduledTimeEpoch DESC`: every row once, latest first. */
    method GetAllIntakes() returns (es: seq<IntakeEntity>)
      requires Valid()
      ensures |es| == |rows|
      ensures forall e :: e in es <==> Stored(rows, e)
      ensures DistinctIds(es)
      ensures SortedByScheduledDesc(es)
    {
      es := [];
      var remaining := rows.Keys;
      ghost var done: set<int> := {};
      while remaining != {}
        invariant remaining + done == rows.Keys && remaining !! done
        invariant |es| == |done|
        invariant forall e :: e in es <==> e.id in done && Stored(rows, e)
        invariant DistinctIds(es)
        invariant SortedByScheduledDesc(es)
        decreases remaining
      {
        HasMember(remaining);
        var id :| id in remaining;
        InsertKeepsOrder(rows[id].entity, es);
        InsertKeepsIdsDistinct(rows[id].entity, es);
        es := InsertByScheduledDesc(rows[id].entity, es);
        remaining := remaining - {id};
        done := done + {id};
      }
      assert done == rows.Keys;
    }

    /**
     * `SELECT * ... WHERE scheduledTimeEpoch >= startEpoch AND scheduledTimeEpoch <= endEpoch
     * ORDER BY scheduledTimeEpoch ASC` (both ends inclusive).
     */
    method GetIntakesBetween(startEpoch: int, endEpoch: int) returns (es: seq<IntakeEntity>)
      requires Valid()
      ensures forall e :: e in es <==> Stored(rows, e) && startEpoch <= e.scheduledTimeEpoch <= endEpoch
      ensures DistinctIds(es)
      ensures SortedByScheduledAsc(es)
    {
      var all := GetAllIntakes();
      es := [];
      var i := |all|;
      while i > 0
        invariant 0 <= i <= |all|
        invariant forall e :: e in es <==> e in all[i..] && startEpoch <= e.scheduledTimeEpoch <= endEpoch
        invariant DistinctIds(es)
        invariant SortedByScheduledAsc(es)
        invariant forall x, j :: x in es && 0 <= j < i ==> x.scheduledTimeEpoch <= all[j].scheduledTimeEpoch
      {
        i := i - 1;
        var e := all[i];
        if startEpoch <= e.scheduledTimeEpoch <= endEpoch {
          forall x | x in es ensures x.id != e.id {
            var j :| i < j < |all| && all[j] == x;
          }
          es := es + [e];
        }
        assert all[i..] == [e] + all[i + 1..];
      }
    }

    /** `SELECT * ... WHERE id = :id` */
    function GetIntakeById(id: int): (r: Option<IntakeEntity>)
      reads this
      requires Valid()
      ensures r.Some? <==> id in rows
      ensures r.Some? ==> r.value.id == id && Stored(rows, r.value)
    {
      if id in rows then Some(rows[id].entity) else None
    }

    /** `... ORDER BY scheduledTimeEpoch DESC LIMIT 1`: the first row of GetAllIntakes. */
    method GetLatestIntake() returns (r: Option<IntakeEntity>)
      requires Valid()
      ensures r.None? <==> rows == map[]
      ensures r.Some? ==> Stored(rows, r.value)
      ensures r.Some? ==> forall k :: k in rows ==> rows[k].entity.scheduledTimeEpoch <= r.value.scheduledTimeEpoch
    {
      var all := GetAllIntakes();
      if all == [] {
        r := None;
      } else {
        r := Some(all[0]);
        forall k | k in rows ensures rows[k].entity.scheduledTimeEpoch <= all[0].scheduledTimeEpoch {
          assert rows[k].entity in all;
        }
      }
    }

    /** `... WHERE isCompleted = 0 ORDER BY scheduledTimeEpoch ASC LIMIT 1` */
    method GetNextScheduledIntake() returns (r: Option<IntakeEntity>)
      requires Valid()
      ensures r.None? <==> forall k :: k in rows ==> !Pending(rows[k])
      ensures r.Some? ==> IsNextScheduled(rows, r.value)
    {
      r := None;
      var remaining := rows.Keys;
      while remaining != {}
        invariant remaining <= rows.Keys
        invariant r.None? ==> forall k :: k in rows && k !in remaining ==> !Pending(rows[k])
        invariant r.Some? ==> Stored(rows, r.value) && Pending(rows[r.value.id])
        invariant r.Some? ==> forall k :: k in rows && k !in remaining && Pending(rows[k]) ==>
          r.value.scheduledTimeEpoch <= rows[k].entity.scheduledTimeEpoch
        decreases remaining
      {
        HasMember(remaining);
        var id :| id in remaining;
        var row := rows[id];
        if Pending(row) && (r.None? || row.entity.scheduledTimeEpoch < r.value.scheduledTimeEpoch) {
          r := Some(row.entity);
        }
        remaining := remaining - {id};
      }
    }

    /**
     * `... WHERE isCompleted = 1 AND actualTimeEpoch IS NOT NULL AND source =
     * 'SCHEDULED' ORDER BY actualTimeEpoch DESC LIMIT 1`
     */
    method GetLastCompletedIntake() returns (r: Option<IntakeEntity>)
      requires Valid()
      ensures r.None? <==> forall k :: k in rows ==> !TakenAsScheduled(rows[k])
      ensures r.Some? ==> IsLastCompleted(rows, r.value)
    {
      r := None;
      var remaining := rows.Keys;
      while remaining != {}
        invariant remaining <= rows.Keys
        invariant r.None? ==> forall k :: k in rows && k !in remaining ==> !TakenAsScheduled(rows[k])
        invariant r.Some? ==> Stored(rows, r.value) && TakenAsScheduled(rows[r.value.id])
        invariant r.Some? ==> forall k :: k in rows && k !in remaining && TakenAsScheduled(rows[k]) ==>
          rows[k].entity.actualTimeEpoch.value <= r.value.actualTimeEpoch.value
        decreases remaining
      {
        HasMember(remaining);
        var id :| id in remaining;
        var row := rows[id];
        if TakenAsScheduled(row) && (r.None? || row.entity.actualTimeEpoch.value > r.value.actualTimeEpoch.value) {
          r := Some(row.entity);
        }
        remaining := remaining - {id};
      }
    }

    /**
     * `@Insert(onConflict = REPLACE)`. An id of 0 means "not set" and takes the
     * next value of the AUTOINCREMENT counter; any other id replaces the row
     * stored under it. Returns the row's id.
     */
    method InsertIntake(e: IntakeEntity) returns (id: int)
      requires Valid()
      modifies this
      ensures Valid()
      ensures id == if e.id == 0 then old(lastId) + 1 else e.id
      ensures rows == Replace(old(rows), e, id)
      ensures lastId == if id > old(lastId) then id else old(lastId)
    {
      id := if e.id == 0 then lastId + 1 else e.id;
      rows := rows[id := Row(e.(id := id), Scheduled)];
      if id > lastId {
        lastId := id;
      }
    }

    /** `@Update` */
    method UpdateIntake(e: IntakeEntity)
      requires Valid()
      modifies this
      ensures Valid() && lastId == old(lastId)
      ensures rows == Update(old(rows), e)
    {
      if e.id in rows {
        rows := rows[e.id := Row(e, rows[e.id].source)];
      }
    }

    method MarkIntakeTaken(id: int, actualTimeEpoch: int)
      requires Valid()
      modifies this
      ensures Valid() && lastId == old(lastId)
      ensures rows == MarkTaken(old(rows), id, actualTimeEpoch)
    {
      if id in rows {
        var row := rows[id];
        rows := rows[id := row.(entity := row.entity.(actualTimeEpoch := Some(actualTimeEpoch), isCompleted := true))];
      }
    }

    method SubmitFeedback(id: int, feedbackType: string, feedbackTimeEpoch: int, nextScheduledTimeEpoch: Option<int>)
      requires Valid()
      modifies this
      ensures Valid() && lastId == old(lastId)
      ensures rows == SetFeedback(old(rows), id, feedbackType, feedbackTimeEpoch, nextScheduledTimeEpoch)
    {
      if id in rows {
        var row := rows[id];
        rows := rows[id := row.(entity := row.entity.(
          feedbackType := Some(feedbackType),
          feedbackTimeEpoch := Some(feedbackTimeEpoch),
          nextScheduledTimeEpoch := nextScheduledTimeEpoch))];
      }
    }

    method DeleteIntake(id: int)
      requires Valid()
      modifies this
      ensures Valid() && lastId == old(lastId)
      ensures rows == Delete(old(rows), id)
    {
      rows := rows - {id};
    }

    /** `DELETE FROM medication_intakes`; the AUTOINCREMENT counter is kept. */
    method DeleteAll()
      requires Valid()
      modifies this
      ensures Valid() && lastId == old(lastId)
      ensures rows == map[]
    {
      rows := map[];
    }
  }
}
