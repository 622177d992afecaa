/** The event service: parses the optional type filter of the listing (an
    unusable filter means "all events"), validates the type name of a create
    request, and shapes responses with the type written as its name. */
module EventService {
  import opened Wrappers
  import opened Domain
  import opened Seqs
  import E = EventRepository

  datatype CreateSensorEventRequest = CreateSensorEventRequest(
    eventType: string, status: string, triggeredBy: string)

  datatype SensorEventResponse = SensorEventResponse(
    rowId: int,
    id: Guid,
    eventType: string,
    status: string,
    triggeredBy: string,
    timestamp: Instant,
    createdAt: Instant)

  datatype SensorEventPollResponse = SensorEventPollResponse(data: seq<SensorEventResponse>)

  /** A completed create: the table afterwards and the response returned. */
  datatype Created = Created(table: E.EventTable, response: SensorEventResponse)

  function ResponseRowId(r: SensorEventResponse): int { r.rowId }

  /** The response for an event: the type as its name, everything else copied. */
  function MapToResponse(e: SensorEvent): (r: SensorEventResponse)
    ensures ParseEventType(r.eventType) == Some(e.eventType)
    ensures r.rowId == e.rowId && r.id == e.id && r.status == e.status && r.triggeredBy == e.triggeredBy
    ensures r.timestamp == e.timestamp && r.createdAt == e.createdAt
  {
    EventTypeNameRoundTrip(e.eventType);
    SensorEventResponse(e.rowId, e.id, EventTypeName(e.eventType), e.status, e.triggeredBy,
                        e.timestamp, e.createdAt)
  }

  function Responses(es: seq<SensorEvent>): (r: seq<SensorEventResponse>)
    ensures |r| == |es|
    ensures forall i | 0 <= i < |es| :: r[i] == MapToResponse(es[i])
  {
    seq(|es|, i requires 0 <= i < |es| => MapToResponse(es[i]))
  }

  lemma ResponsesDecreasing(es: seq<SensorEvent>)
    requires DecreasingBy(es, E.EntityRowId)
    ensures DecreasingBy(Responses(es), ResponseRowId)
  {
  }

  /** Every listed entity has its response in the mapped listing. */
  lemma ResponsesMembers(es: seq<SensorEvent>)
    ensures forall e | e in es :: MapToResponse(e) in Responses(es)
  {
    forall e | e in es ensures MapToResponse(e) in Responses(es) {
      var k :| 0 <= k < |es| && es[k] == e;
      assert Responses(es)[k] == MapToResponse(e);
    }
  }

  /** The characters `char.IsWhiteSpace` accepts among ASCII and Latin-1. */
  predicate IsWhiteSpace(c: char) {
    c == ' ' || c == '\t' || c == '\n' || c == '\r' || c == '\U{000B}' || c == '\U{000C}'
    || c == '\U{0085}' || c == '\U{00A0}'
  }

  /** `string.IsNullOrWhiteSpace`: absent, empty, or white space only. */
  predicate IsNullOrWhiteSpace(text: Option<string>) {
    text.None? || forall i | 0 <= i < |text.value| :: IsWhiteSpace(text.value[i])
  }

  /** The listing filter: a type when the text is present, not blank, and an
      exact type name; otherwise no filter. */
  function ParseFilter(text: Option<string>): (r: Option<EventType>)
    ensures r.Some? <==> text.Some? && ParseEventType(text.value).Some?
    ensures r.Some? ==> EventTypeName(r.value) == text.value
  {
    if IsNullOrWhiteSpace(text) then
      assert text.Some? ==> ParseEventType(text.value).None? by {
        if text.Some? && |text.value| > 0 {
          assert !IsWhiteSpace(text.value[0]) ==> !IsNullOrWhiteSpace(text);
        }
      }
      None
    else ParseEventType(text.value)
  }

  function GetById(t: E.EventTable, id: Guid): (r: Option<SensorEventResponse>)
    requires E.Valid(t)
    ensures r.None? <==> !E.IdTaken(t.rows, id)
    ensures forall i | 0 <= i < |t.rows| && t.rows[i].id == id ::
              r == Some(MapToResponse(E.ToEntity(t.rows[i])))
  {
    match E.GetById(t, id)
    case None => None
    case Some(e) => Some(MapToResponse(e))
  }

  /** The listing with an optional textual type filter, newest first. */
  function GetAll(t: E.EventTable, text: Option<string>): (r: seq<SensorEventResponse>)
    requires E.Valid(t)
    ensures ParseFilter(text).Some? ==> forall k | 0 <= k < |r| :: r[k].eventType == text.value
    ensures forall k | 0 <= k < |r| ::
              exists i | 0 <= i < |t.rows| :: r[k] == MapToResponse(E.ToEntity(t.rows[i]))
    ensures forall i | 0 <= i < |t.rows| &&
                       (ParseFilter(text).None? || E.ToEntity(t.rows[i]).eventType == ParseFilter(text).value) ::
              MapToResponse(E.ToEntity(t.rows[i])) in r
    ensures ParseFilter(text).None? ==> |r| == |t.rows|
    ensures DecreasingBy(r, ResponseRowId)
  {
    var listed := E.GetAll(t, ParseFilter(text));
    ResponsesDecreasing(listed);
    ResponsesMembers(listed);
    Responses(listed)
  }

  /** An absent, blank or unknown filter lists exactly what no filter lists. */
  lemma UnusableFilterMeansAll(t: E.EventTable, text: Option<string>)
    requires E.Valid(t)
    requires text.None? || IsNullOrWhiteSpace(text) || ParseEventType(text.value).None?
    ensures GetAll(t, text) == GetAll(t, None)
  {
  }

  /** A known type name lists the unfiltered events of that type, in the same order. */
  lemma KnownFilterSelectsType(t: E.EventTable, f: EventType)
    requires E.Valid(t)
    ensures GetAll(t, Some(EventTypeName(f))) == Responses(Filter(E.GetAll(t, None), E.OfType(f)))
  {
    EventTypeNameRoundTrip(f);
    E.FilteredIsSubsequence(t, f);
  }

  /** The poll: the events after the cursor, newest first, as responses. */
  function GetNewSince(t: E.EventTable, since: int): (r: SensorEventPollResponse)
    requires E.Valid(t)
    ensures forall k | 0 <= k < |r.data| :: r.data[k].rowId > since
    ensures forall k | 0 <= k < |r.data| ::
              exists i | 0 <= i < |t.rows| :: r.data[k] == MapToResponse(E.ToEntity(t.rows[i]))
    ensures forall i | 0 <= i < |t.rows| && t.rows[i].rowId > since ::
              MapToResponse(E.ToEntity(t.rows[i])) in r.data
    ensures DecreasingBy(r.data, ResponseRowId)
  {
    var polled := E.GetNewSince(t, since);
    ResponsesDecreasing(polled);
    ResponsesMembers(polled);
    SensorEventPollResponse(Responses(polled))
  }

  /** Create: parse the type (throwing on an unknown name, before any write),
      build the event with one clock reading and a fresh Id, insert it ignoring
      the insert's boolean, and answer with the entity as built, whose RowId
      was never set. */
  function Create(t: E.EventTable, req: CreateSensorEventRequest, now: Instant, newId: Guid,
                  storeUp: bool): (r: Result<Created, Fault>)
    requires E.Valid(t)
    ensures ParseEventType(req.eventType).None? ==> r == Failure(InvalidEnumName(req.eventType))
    ensures r.Success? <==> ParseEventType(req.eventType).Some? && storeUp && !E.IdTaken(t.rows, newId)
    ensures r.Success? ==>
              var rows := r.value.table.rows;
              && E.Valid(r.value.table)
              && |rows| == |t.rows| + 1
              && rows[..|t.rows|] == t.rows
              && var e := E.ToEntity(rows[|t.rows|]);
                 && e.rowId == t.nextRowId && e.id == newId
                 && EventTypeName(e.eventType) == req.eventType
                 && e.status == req.status && e.triggeredBy == req.triggeredBy
                 && e.timestamp == now && e.createdAt == now
    ensures r.Success? ==>
              var resp := r.value.response;
              && resp.rowId == 0
              && resp.rowId != r.value.table.rows[|t.rows|].rowId
              && resp.id == newId && resp.eventType == req.eventType
              && resp.status == req.status && resp.triggeredBy == req.triggeredBy
              && resp.timestamp == now && resp.createdAt == now
  {
    match ParseEventType(req.eventType)
    case None => Failure(InvalidEnumName(req.eventType))
    case Some(eventType) =>
      var entity := SensorEvent(0, newId, eventType, req.status, req.triggeredBy, now, now);
      match E.Create(t, entity, storeUp)
      case Failure(f) => Failure(f)
      case Success(written) => Success(Created(written.table, MapToResponse(entity)))
  }
}
