/** The status service: turns requests into status rows (validating the
    enumeration names), passes queries through to the repository and shapes
    responses with the enumerations written as names. It owns only the status
    table, so none of its operations can write an event. */
module StatusService {
  import opened Wrappers
  import opened Domain
  import opened Seqs
  import S = StatusRepository

  /** The body of create and update requests; the enumerations arrive as text. */
  datatype UpdateSensorStatusRequest = UpdateSensorStatusRequest(
    sensorId: string, status: string, ledColor: string, changedOn: string)

  /** The body of the force-error and force-reboot requests (both have this shape). */
  datatype ForceRequest = ForceRequest(sensorId: string, triggeredBy: string)

  datatype SensorStatusResponse = SensorStatusResponse(
    rowId: int,
    id: Guid,
    sensorId: string,
    status: string,
    ledColor: string,
    changedOn: string,
    timestamp: Instant,
    createdAt: Instant,
    updatedAt: Instant)

  datatype SensorStatusPollResponse = SensorStatusPollResponse(data: seq<SensorStatusResponse>)

  /** A completed create: the table afterwards and the response returned. */
  datatype Created = Created(table: S.StatusTable, response: SensorStatusResponse)

  function ResponseRowId(r: SensorStatusResponse): int { r.rowId }

  /** The response for a status: enumerations as names, everything else copied. */
  function MapToResponse(s: SensorStatus): (r: SensorStatusResponse)
    ensures ParseStatus(r.status) == Some(s.status)
    ensures ParseLedColor(r.ledColor) == Some(s.ledColor)
    ensures r.rowId == s.rowId && r.id == s.id && r.sensorId == s.sensorId
    ensures r.changedOn == s.changedOn
    ensures r.timestamp == s.timestamp && r.createdAt == s.createdAt && r.updatedAt == s.updatedAt
  {
    StatusNameRoundTrip(s.status);
    LedColorNameRoundTrip(s.ledColor);
    SensorStatusResponse(s.rowId, s.id, s.sensorId, StatusName(s.status), LedColorName(s.ledColor),
                         s.changedOn, s.timestamp, s.createdAt, s.updatedAt)
  }

  function Responses(ss: seq<SensorStatus>): (r: seq<SensorStatusResponse>)
    ensures |r| == |ss|
    ensures forall i | 0 <= i < |ss| :: r[i] == MapToResponse(ss[i])
  {
    seq(|ss|, i requires 0 <= i < |ss| => MapToResponse(ss[i]))
  }

  lemma ResponsesDecreasing(ss: seq<SensorStatus>)
    requires DecreasingBy(ss, S.EntityRowId)
    ensures DecreasingBy(Responses(ss), ResponseRowId)
  {
  }

  /** Every listed entity has its response in the mapped listing. */
  lemma ResponsesMembers(ss: seq<SensorStatus>)
    ensures forall e | e in ss :: MapToResponse(e) in Responses(ss)
  {
    forall e | e in ss ensures MapToResponse(e) in Responses(ss) {
      var k :| 0 <= k < |ss| && ss[k] == e;
      assert Responses(ss)[k] == MapToResponse(e);
    }
  }

  function GetById(t: S.StatusTable, id: Guid): (r: Option<SensorStatusResponse>)
    requires S.Valid(t)
    ensures r.None? <==> !S.IdTaken(t.rows, id)
    ensures forall i | 0 <= i < |t.rows| && t.rows[i].id == id ::
              r == Some(MapToResponse(S.ToEntity(t.rows[i])))
  {
    match S.GetById(t, id)
    case None => None
    case Some(s) => Some(MapToResponse(s))
  }

  function GetAll(t: S.StatusTable): (r: seq<SensorStatusResponse>)
    requires S.Valid(t)
    ensures |r| == |t.rows|
    ensures forall i | 0 <= i < |t.rows| :: MapToResponse(S.ToEntity(t.rows[i])) in r
    ensures DecreasingBy(r, ResponseRowId)
  {
    var all := S.GetAll(t);
    ResponsesDecreasing(all);
    ResponsesMembers(all);
    Responses(all)
  }

  /** The current status of a sensor: a row for it with the greatest Timestamp. */
  function GetCurrentBySensorId(t: S.StatusTable, sensorId: string): (r: Option<SensorStatusResponse>)
    requires S.Valid(t)
    ensures r.None? <==> forall i | 0 <= i < |t.rows| :: t.rows[i].sensorId != sensorId
    ensures r.Some? ==> r.value.sensorId == sensorId
    ensures r.Some? ==> exists i | 0 <= i < |t.rows| :: r.value == MapToResponse(S.ToEntity(t.rows[i]))
    ensures r.Some? ==> forall i | 0 <= i < |t.rows| && t.rows[i].sensorId == sensorId ::
                          t.rows[i].timestamp <= r.value.timestamp
  {
    match S.GetCurrentBySensorId(t, sensorId)
    case None => None
    case Some(s) => Some(MapToResponse(s))
  }

  /** The poll: the rows after the cursor, newest first, as responses. */
  function GetNewSince(t: S.StatusTable, since: int): (r: SensorStatusPollResponse)
    requires S.Valid(t)
    ensures forall k | 0 <= k < |r.data| :: r.data[k].rowId > since
    ensures forall k | 0 <= k < |r.data| ::
              exists i | 0 <= i < |t.rows| :: r.data[k] == MapToResponse(S.ToEntity(t.rows[i]))
    ensures forall i | 0 <= i < |t.rows| && t.rows[i].rowId > since ::
              MapToResponse(S.ToEntity(t.rows[i])) in r.data
    ensures DecreasingBy(r.data, ResponseRowId)
  {
    var polled := S.GetNewSince(t, since);
    ResponsesDecreasing(polled);
    ResponsesMembers(polled);
    SensorStatusPollResponse(Responses(polled))
  }

  /** Create: parse Status, then LedColor (each parse throws on an unknown
      name, before anything is written), build the row with one clock reading
      and a fresh Id, insert it ignoring the insert's boolean, and answer with
      the entity as built, whose RowId was never set. */
  function Create(t: S.StatusTable, req: UpdateSensorStatusRequest, now: Instant, newId: Guid,
                  storeUp: bool): (r: Result<Created, Fault>)
    requires S.Valid(t)
    ensures ParseStatus(req.status).None? ==> r == Failure(InvalidEnumName(req.status))
    ensures ParseStatus(req.status).Some? && ParseLedColor(req.ledColor).None? ==>
              r == Failure(InvalidEnumName(req.ledColor))
    ensures r.Success? <==>
              && ParseStatus(req.status).Some? && ParseLedColor(req.ledColor).Some?
              && storeUp && !S.IdTaken(t.rows, newId)
    ensures r.Success? ==>
              var rows := r.value.table.rows;
              && S.Valid(r.value.table)
              && |rows| == |t.rows| + 1
              && rows[..|t.rows|] == t.rows
              && var e := S.ToEntity(rows[|t.rows|]);
                 && e.rowId == t.nextRowId && e.id == newId && e.sensorId == req.sensorId
                 && StatusName(e.status) == req.status && LedColorName(e.ledColor) == req.ledColor
                 && e.changedOn == req.changedOn
                 && e.timestamp == now && e.createdAt == now && e.updatedAt == now
    ensures r.Success? ==>
              var resp := r.value.response;
              && resp.rowId == 0
              && resp.rowId != r.value.table.rows[|t.rows|].rowId
              && resp.id == newId && resp.sensorId == req.sensorId
              && resp.status == req.status && resp.ledColor == req.ledColor
              && resp.changedOn == req.changedOn
              && resp.timestamp == now && resp.createdAt == now && resp.updatedAt == now
  {
    match ParseStatus(req.status)
    case None => Failure(InvalidEnumName(req.status))
    case Some(status) =>
      match ParseLedColor(req.ledColor)
      case None => Failure(InvalidEnumName(req.ledColor))
      case Some(color) =>
        var entity := SensorStatus(0, newId, req.sensorId, status, color, req.changedOn, now, now, now);
        match S.Create(t, entity, storeUp)
        case Failure(f) => Failure(f)
        case Success(written) => Success(Created(written.table, MapToResponse(entity)))
  }

  /** Update: parse both names (throwing before any write), stamp Timestamp and
      UpdatedAt with two separate clock readings, and return the repository's
      answer unchanged. */
  function Update(t: S.StatusTable, id: Guid, req: UpdateSensorStatusRequest,
                  timestampNow: Instant, updatedNow: Instant, storeUp: bool): (r: Result<S.Written, Fault>)
    requires S.Valid(t)
    ensures ParseStatus(req.status).None? ==> r == Failure(InvalidEnumName(req.status))
    ensures ParseStatus(req.status).Some? && ParseLedColor(req.ledColor).None? ==>
              r == Failure(InvalidEnumName(req.ledColor))
    ensures ParseStatus(req.status).Some? && ParseLedColor(req.ledColor).Some? && !storeUp ==>
              r == Failure(StoreUnavailable)
    ensures r.Success? <==> ParseStatus(req.status).Some? && ParseLedColor(req.ledColor).Some? && storeUp
    ensures r.Success? ==>
              && S.Valid(r.value.table)
              && |r.value.table.rows| == |t.rows|
              && (r.value.affected <==> S.IdTaken(t.rows, id))
              && (!r.value.affected ==> r.value.table == t)
    ensures r.Success? ==>
              forall i | 0 <= i < |t.rows| ::
                if t.rows[i].id == id then
                  var e := S.ToEntity(r.value.table.rows[i]);
                  && e.rowId == t.rows[i].rowId && e.id == id && e.createdAt == t.rows[i].createdAt
                  && e.sensorId == req.sensorId && StatusName(e.status) == req.status
                  && LedColorName(e.ledColor) == req.ledColor && e.changedOn == req.changedOn
                  && e.timestamp == timestampNow && e.updatedAt == updatedNow
                else r.value.table.rows[i] == t.rows[i]
  {
    match ParseStatus(req.status)
    case None => Failure(InvalidEnumName(req.status))
    case Some(status) =>
      match ParseLedColor(req.ledColor)
      case None => Failure(InvalidEnumName(req.ledColor))
      case Some(color) =>
        var entity := SensorStatus(0, EmptyGuid, req.sensorId, status, color, req.changedOn,
                                   timestampNow, NoInstant, updatedNow);
        S.Update(t, id, entity, storeUp)
  }

  /** Force-error: a create of an Error/Red status whose ChangedOn is the requester. */
  function ForceError(t: S.StatusTable, req: ForceRequest, now: Instant, newId: Guid,
                      storeUp: bool): (r: Result<Created, Fault>)
    requires S.Valid(t)
    ensures r.Success? <==> storeUp && !S.IdTaken(t.rows, newId)
    ensures r.Success? ==>
              var rows := r.value.table.rows;
              && S.Valid(r.value.table)
              && |rows| == |t.rows| + 1
              && rows[..|t.rows|] == t.rows
              && var e := S.ToEntity(rows[|t.rows|]);
                 && e.rowId == t.nextRowId && e.id == newId
                 && e.sensorId == req.sensorId && e.status == Error && e.ledColor == Red
                 && e.changedOn == req.triggeredBy
                 && e.timestamp == now && e.createdAt == now && e.updatedAt == now
    ensures r.Success? ==>
              var resp := r.value.response;
              && resp.rowId == 0 && resp.id == newId && resp.sensorId == req.sensorId
              && resp.status == "Error" && resp.ledColor == "Red"
              && resp.changedOn == req.triggeredBy
              && resp.timestamp == now && resp.createdAt == now && resp.updatedAt == now
  {
    StatusNameRoundTrip(Error);
    LedColorNameRoundTrip(Red);
    Create(t, UpdateSensorStatusRequest(req.sensorId, StatusName(Error), LedColorName(Red), req.triggeredBy),
           now, newId, storeUp)
  }

  /** Force-reboot: a create of a Rebooting/Off status whose ChangedOn is the requester. */
  function ForceReboot(t: S.StatusTable, req: ForceRequest, now: Instant, newId: Guid,
                       storeUp: bool): (r: Result<Created, Fault>)
    requires S.Valid(t)
    ensures r.Success? <==> storeUp && !S.IdTaken(t.rows, newId)
    ensures r.Success? ==>
              var rows := r.value.table.rows;
              && S.Valid(r.value.table)
              && |rows| == |t.rows| + 1
              && rows[..|t.rows|] == t.rows
              && var e := S.ToEntity(rows[|t.rows|]);
                 && e.rowId == t.nextRowId && e.id == newId
                 && e.sensorId == req.sensorId && e.status == Rebooting && e.ledColor == Off
                 && e.changedOn == req.triggeredBy
                 && e.timestamp == now && e.createdAt == now && e.updatedAt == now
    ensures r.Success? ==>
              var resp := r.value.response;
              && resp.rowId == 0 && resp.id == newId && resp.sensorId == req.sensorId
              && resp.status == "Rebooting" && resp.ledColor == "Off"
              && resp.changedOn == req.triggeredBy
              && resp.timestamp == now && resp.createdAt == now && resp.updatedAt == now
  {
    StatusNameRoundTrip(Rebooting);
    LedColorNameRoundTrip(Off);
    Create(t, UpdateSensorStatusRequest(req.sensorId, StatusName(Rebooting), LedColorName(Off), req.triggeredBy),
           now, newId, storeUp)
  }

  /** When a newly created row is strictly newer than every earlier row of its
      sensor, it is that sensor's current status. */
  lemma NewestRowIsCurrent(t: S.StatusTable, t': S.StatusTable, sensorId: string, now: Instant)
    requires S.Valid(t) && S.Valid(t')
    requires |t'.rows| == |t.rows| + 1 && t'.rows[..|t.rows|] == t.rows
    requires t'.rows[|t.rows|].sensorId == sensorId && t'.rows[|t.rows|].timestamp == now
    requires forall i | 0 <= i < |t.rows| && t.rows[i].sensorId == sensorId :: t.rows[i].timestamp < now
    ensures GetCurrentBySensorId(t', sensorId) == Some(MapToResponse(S.ToEntity(t'.rows[|t.rows|])))
  {
    var n := |t.rows|;
    var r := GetCurrentBySensorId(t', sensorId);
    assert r.Some?;
    var i :| 0 <= i < |t'.rows| && r.value == MapToResponse(S.ToEntity(t'.rows[i]));
    assert t'.rows[n].timestamp <= r.value.timestamp;
    assert i == n;
  }

  /** Force-error then current: the sensor reads back as "Error", changed by
      the requester, provided the clock has moved past its earlier rows. */
  lemma ForceErrorThenCurrent(t: S.StatusTable, req: ForceRequest, now: Instant, newId: Guid, storeUp: bool)
    requires S.Valid(t)
    requires ForceError(t, req, now, newId, storeUp).Success?
    requires forall i | 0 <= i < |t.rows| && t.rows[i].sensorId == req.sensorId :: t.rows[i].timestamp < now
    ensures var t' := ForceError(t, req, now, newId, storeUp).value.table;
            var current := GetCurrentBySensorId(t', req.sensorId);
            && current.Some?
            && current.value.status == "Error"
            && current.value.ledColor == "Red"
            && current.value.changedOn == req.triggeredBy
  {
    var t' := ForceError(t, req, now, newId, storeUp).value.table;
    NewestRowIsCurrent(t, t', req.sensorId, now);
  }

  /** Force-reboot then current: the sensor reads back as "Rebooting". */
  lemma ForceRebootThenCurrent(t: S.StatusTable, req: ForceRequest, now: Instant, newId: Guid, storeUp: bool)
    requires S.Valid(t)
    requires ForceReboot(t, req, now, newId, storeUp).Success?
    requires forall i | 0 <= i < |t.rows| && t.rows[i].sensorId == req.sensorId :: t.rows[i].timestamp < now
    ensures var t' := ForceReboot(t, req, now, newId, storeUp).value.table;
            var current := GetCurrentBySensorId(t', req.sensorId);
            && current.Some?
            && current.value.status == "Rebooting"
            && current.value.ledColor == "Off"
            && current.value.changedOn == req.triggeredBy
  {
    var t' := ForceReboot(t, req, now, newId, storeUp).value.table;
    NewestRowIsCurrent(t, t', req.sensorId, now);
  }
}
