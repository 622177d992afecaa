/** The sensor orchestrator: each transition handler inserts one status row and
    then one event row, with a fixed status, LED colour and event type, and
    without reading what the store already holds. */
module Orchestrator {
  import opened Wrappers
  import opened Domain
  import S = StatusRepository
  import E = EventRepository

  /** The shared store: both tables. */
  datatype Db = Db(statuses: S.StatusTable, events: E.EventTable)

  predicate Valid(db: Db) {
    S.Valid(db.statuses) && E.Valid(db.events)
  }

  const EmptyDb := Db(S.EmptyTable, E.EmptyTable)

  /** The freshly created schema, with both tables empty, is a valid store. */
  lemma EmptyDbValid()
    ensures Valid(EmptyDb)
    ensures |EmptyDb.statuses.rows| == 0 && |EmptyDb.events.rows| == 0
  {
  }

  /** What a handler takes from outside: the clock, read once on entry, the two
      fresh GUIDs, and whether each insert reaches the store. */
  datatype Env = Env(now: Instant, statusId: Guid, eventId: Guid, statusStoreUp: bool, eventStoreUp: bool)

  /** The store after a handler, and the exception it ended with, if any. */
  datatype Outcome = Outcome(db: Db, fault: Option<Fault>)

  /** The status each transition records. */
  function TargetStatus(t: EventType): SensorStatusEnum {
    match t
    case ErrorDetected => Error
    case RebootStarted => Rebooting
    case RebootCompleted => Online
  }

  /** The LED colour each transition records. */
  function TargetColor(t: EventType): LedColor {
    match t
    case ErrorDetected => Red
    case RebootStarted => Off
    case RebootCompleted => Green
  }

  /** The status entity a handler builds; its RowId is left at 0. */
  function StatusFor(t: EventType, sensorId: string, triggeredBy: string, env: Env): SensorStatus {
    SensorStatus(0, env.statusId, sensorId, TargetStatus(t), TargetColor(t), triggeredBy,
                 env.now, env.now, env.now)
  }

  /** The event entity a handler builds; it carries no sensor id. */
  function EventFor(t: EventType, triggeredBy: string, env: Env): SensorEvent {
    SensorEvent(0, env.eventId, t, StatusName(TargetStatus(t)), triggeredBy, env.now, env.now)
  }

  /** Whether the status insert of a handler goes through. */
  predicate StatusInsertSucceeds(db: Db, env: Env) {
    env.statusStoreUp && !S.IdTaken(db.statuses.rows, env.statusId)
  }

  /** Whether the event insert of a handler goes through. */
  predicate EventInsertSucceeds(db: Db, env: Env) {
    env.eventStoreUp && !E.IdTaken(db.events.rows, env.eventId)
  }

  /** The most recently inserted status row, read back. */
  function LastStatus(db: Db): SensorStatus
    requires Valid(db) && |db.statuses.rows| > 0
  {
    S.ToEntity(db.statuses.rows[|db.statuses.rows| - 1])
  }

  /** The most recently inserted event row, read back. */
  function LastEvent(db: Db): SensorEvent
    requires Valid(db) && |db.events.rows| > 0
  {
    E.ToEntity(db.events.rows[|db.events.rows| - 1])
  }

  /** One transition: insert the status row, then the event row. The status
      insert's boolean result is not consulted; an exception from it stops the
      handler before the event is built, and an exception from the event
      insert leaves the status row in place. */
  function Handle(db: Db, t: EventType, sensorId: string, triggeredBy: string, env: Env): (r: Outcome)
    requires Valid(db)
    ensures Valid(r.db)
    ensures r.fault.None? <==> StatusInsertSucceeds(db, env) && EventInsertSucceeds(db, env)
    ensures !StatusInsertSucceeds(db, env) ==> r.db == db
    ensures StatusInsertSucceeds(db, env) ==>
              && |r.db.statuses.rows| == |db.statuses.rows| + 1
              && r.db.statuses.rows[..|db.statuses.rows|] == db.statuses.rows
              && LastStatus(r.db)
                   == SensorStatus(db.statuses.nextRowId, env.statusId, sensorId, TargetStatus(t),
                                   TargetColor(t), triggeredBy, env.now, env.now, env.now)
    ensures r.fault.Some? ==> r.db.events == db.events
    ensures r.fault.None? ==>
              && |r.db.events.rows| == |db.events.rows| + 1
              && r.db.events.rows[..|db.events.rows|] == db.events.rows
              && LastEvent(r.db)
                   == SensorEvent(db.events.nextRowId, env.eventId, t, StatusName(TargetStatus(t)),
                                  triggeredBy, env.now, env.now)
    ensures r.fault.None? ==> ParseStatus(LastEvent(r.db).status) == Some(LastStatus(r.db).status)
  {
    StatusNameRoundTrip(TargetStatus(t));
    LedColorNameRoundTrip(TargetColor(t));
    EventTypeNameRoundTrip(t);
    match S.Create(db.statuses, StatusFor(t, sensorId, triggeredBy, env), env.statusStoreUp)
    case Failure(f) => Outcome(db, Some(f))
    case Success(written) =>
      var afterStatus := db.(statuses := written.table);
      match E.Create(db.events, EventFor(t, triggeredBy, env), env.eventStoreUp)
      case Failure(f) => Outcome(afterStatus, Some(f))
      case Success(logged) => Outcome(afterStatus.(events := logged.table), None)
  }

  /** `HandleErrorDetectedAsync`: an Error/Red status and an ErrorDetected event labelled "Error". */
  function HandleErrorDetected(db: Db, sensorId: string, triggeredBy: string, env: Env): (r: Outcome)
    requires Valid(db)
    ensures Valid(r.db)
    ensures r.fault.None? <==> StatusInsertSucceeds(db, env) && EventInsertSucceeds(db, env)
    ensures StatusInsertSucceeds(db, env) ==>
              |r.db.statuses.rows| == |db.statuses.rows| + 1 &&
              r.db.statuses.rows[..|db.statuses.rows|] == db.statuses.rows &&
              var s := LastStatus(r.db);
              && s.rowId == db.statuses.nextRowId && s.id == env.statusId
              && s.sensorId == sensorId && s.status == Error && s.ledColor == Red && s.changedOn == triggeredBy
              && s.timestamp == env.now && s.createdAt == env.now && s.updatedAt == env.now
    ensures !StatusInsertSucceeds(db, env) ==> r.db == db
    ensures r.fault.Some? ==> r.db.events == db.events
    ensures r.fault.None? ==>
              |r.db.events.rows| == |db.events.rows| + 1 &&
              r.db.events.rows[..|db.events.rows|] == db.events.rows &&
              var e := LastEvent(r.db);
              && e.rowId == db.events.nextRowId && e.id == env.eventId
              && e.eventType == ErrorDetected && e.status == "Error" && e.triggeredBy == triggeredBy
              && e.timestamp == env.now && e.createdAt == env.now
  {
    Handle(db, ErrorDetected, sensorId, triggeredBy, env)
  }

  /** `HandleRebootStartedAsync`: a Rebooting/Off status and a RebootStarted event labelled "Rebooting". */
  function HandleRebootStarted(db: Db, sensorId: string, triggeredBy: string, env: Env): (r: Outcome)
    requires Valid(db)
    ensures Valid(r.db)
    ensures r.fault.None? <==> StatusInsertSucceeds(db, env) && EventInsertSucceeds(db, env)
    ensures StatusInsertSucceeds(db, env) ==>
              |r.db.statuses.rows| == |db.statuses.rows| + 1 &&
              r.db.statuses.rows[..|db.statuses.rows|] == db.statuses.rows &&
              var s := LastStatus(r.db);
              && s.rowId == db.statuses.nextRowId && s.id == env.statusId
              && s.sensorId == sensorId && s.status == Rebooting && s.ledColor == Off && s.changedOn == triggeredBy
              && s.timestamp == env.now && s.createdAt == env.now && s.updatedAt == env.now
    ensures !StatusInsertSucceeds(db, env) ==> r.db == db
    ensures r.fault.Some? ==> r.db.events == db.events
    ensures r.fault.None? ==>
              |r.db.events.rows| == |db.events.rows| + 1 &&
              r.db.events.rows[..|db.events.rows|] == db.events.rows &&
              var e := LastEvent(r.db);
              && e.rowId == db.events.nextRowId && e.id == env.eventId
              && e.eventType == RebootStarted && e.status == "Rebooting" && e.triggeredBy == triggeredBy
              && e.timestamp == env.now && e.createdAt == env.now
  {
    Handle(db, RebootStarted, sensorId, triggeredBy, env)
  }

  /** `HandleRebootCompletedAsync`: an Online/Green status and a RebootCompleted event labelled "Online". */
  function HandleRebootCompleted(db: Db, sensorId: string, triggeredBy: string, env: Env): (r: Outcome)
    requires Valid(db)
    ensures Valid(r.db)
    ensures r.fault.None? <==> StatusInsertSucceeds(db, env) && EventInsertSucceeds(db, env)
    ensures StatusInsertSucceeds(db, env) ==>
              |r.db.statuses.rows| == |db.statuses.rows| + 1 &&
              r.db.statuses.rows[..|db.statuses.rows|] == db.statuses.rows &&
              var s := LastStatus(r.db);
              && s.rowId == db.statuses.nextRowId && s.id == env.statusId
              && s.sensorId == sensorId && s.status == Online && s.ledColor == Green && s.changedOn == triggeredBy
              && s.timestamp == env.now && s.createdAt == env.now && s.updatedAt == env.now
    ensures !StatusInsertSucceeds(db, env) ==> r.db == db
    ensures r.fault.Some? ==> r.db.events == db.events
    ensures r.fault.None? ==>
              |r.db.events.rows| == |db.events.rows| + 1 &&
              r.db.events.rows[..|db.events.rows|] == db.events.rows &&
              var e := LastEvent(r.db);
              && e.rowId == db.events.nextRowId && e.id == env.eventId
              && e.eventType == RebootCompleted && e.status == "Online" && e.triggeredBy == triggeredBy
              && e.timestamp == env.now && e.createdAt == env.now
  {
    Handle(db, RebootCompleted, sensorId, triggeredBy, env)
  }

  /** The rows a handler writes are the same whatever the store held before,
      apart from the RowIds the store assigns: no handler consults prior state. */
  lemma WrittenRowsIgnorePriorState(db1: Db, db2: Db, t: EventType, sensorId: string,
                                    triggeredBy: string, env: Env)
    requires Valid(db1) && Valid(db2)
    requires Handle(db1, t, sensorId, triggeredBy, env).fault.None?
    requires Handle(db2, t, sensorId, triggeredBy, env).fault.None?
    ensures var r1 := Handle(db1, t, sensorId, triggeredBy, env).db;
            var r2 := Handle(db2, t, sensorId, triggeredBy, env).db;
            && LastStatus(r1).(rowId := 0) == LastStatus(r2).(rowId := 0)
            && LastEvent(r1).(rowId := 0) == LastEvent(r2).(rowId := 0)
  {
  }

  /** Repeating a transition is never refused: after a successful handler the
      same handler succeeds again given fresh ids and a reachable store, so
      sequences such as Online -> Online are recorded as written. */
  lemma RepeatedTransitionAccepted(db: Db, t: EventType, sensorId: string, triggeredBy: string,
                                   env1: Env, env2: Env)
    requires Valid(db)
    requires Handle(db, t, sensorId, triggeredBy, env1).fault.None?
    requires env2.statusStoreUp && env2.eventStoreUp
    requires env2.statusId != env1.statusId && env2.eventId != env1.eventId
    requires !S.IdTaken(db.statuses.rows, env2.statusId) && !E.IdTaken(db.events.rows, env2.eventId)
    ensures var db1 := Handle(db, t, sensorId, triggeredBy, env1).db;
            var r := Handle(db1, t, sensorId, triggeredBy, env2);
            && r.fault.None?
            && LastStatus(r.db).status == LastStatus(db1).status
            && |r.db.events.rows| == |db.events.rows| + 2
  {
    var db1 := Handle(db, t, sensorId, triggeredBy, env1).db;
    var n := |db.statuses.rows|;
    assert db1.statuses.rows == db.statuses.rows + [db1.statuses.rows[n]];
    assert !S.IdTaken(db1.statuses.rows, env2.statusId);
    var m := |db.events.rows|;
    assert db1.events.rows == db.events.rows + [db1.events.rows[m]];
    assert !E.IdTaken(db1.events.rows, env2.eventId);
  }
}
