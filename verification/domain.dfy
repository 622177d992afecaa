/** The records and enumerations shared by the store, the services and the
    worker, with the text names under which the enumerations are stored. */
module Domain {
  import opened Wrappers

  /** A record identity (a GUID); its text form is not modelled. */
  type Guid = int

  /** A point in time (a `DateTime`), as a tick count. */
  type Instant = int

  /** The identity a record carries before one is assigned (`Guid.Empty`). */
  const EmptyGuid: Guid := 0

  /** The time a record carries before one is assigned (`DateTime.MinValue`). */
  const NoInstant: Instant := 0

  datatype SensorStatusEnum = Online | Error | Rebooting

  datatype LedColor = Green | Red | Off

  datatype EventType = ErrorDetected | RebootStarted | RebootCompleted

  /** Why an operation did not complete. */
  datatype Fault =
    | InvalidEnumName(text: string)   // an enumeration parse rejected the text
    | UniqueViolation(id: Guid)        // an insert reused an existing Id
    | StoreUnavailable                 // no connection to the store could be opened

  /** A status snapshot row as the application sees it. */
  datatype SensorStatus = SensorStatus(
    rowId: int,
    id: Guid,
    sensorId: string,
    status: SensorStatusEnum,
    ledColor: LedColor,
    changedOn: string,
    timestamp: Instant,
    createdAt: Instant,
    updatedAt: Instant)

  /** An event row as the application sees it; it names no sensor. */
  datatype SensorEvent = SensorEvent(
    rowId: int,
    id: Guid,
    eventType: EventType,
    status: string,
    triggeredBy: string,
    timestamp: Instant,
    createdAt: Instant)

  function StatusName(s: SensorStatusEnum): string {
    match s
    case Online => "Online"
    case Error => "Error"
    case Rebooting => "Rebooting"
  }

  function LedColorName(c: LedColor): string {
    match c
    case Green => "Green"
    case Red => "Red"
    case Off => "Off"
  }

  function EventTypeName(t: EventType): string {
    match t
    case ErrorDetected => "ErrorDetected"
    case RebootStarted => "RebootStarted"
    case RebootCompleted => "RebootCompleted"
  }

  /** Exact-name lookup of a status; `None` where the parse would throw. */
  function ParseStatus(text: string): (r: Option<SensorStatusEnum>)
    ensures r.Some? ==> StatusName(r.value) == text
    ensures r.None? ==> forall s :: StatusName(s) != text
  {
    if text == "Online" then Some(Online)
    else if text == "Error" then Some(Error)
    else if text == "Rebooting" then Some(Rebooting)
    else None
  }

  function ParseLedColor(text: string): (r: Option<LedColor>)
    ensures r.Some? ==> LedColorName(r.value) == text
    ensures r.None? ==> forall c :: LedColorName(c) != text
  {
    if text == "Green" then Some(Green)
    else if text == "Red" then Some(Red)
    else if text == "Off" then Some(Off)
    else None
  }

  function ParseEventType(text: string): (r: Option<EventType>)
    ensures r.Some? ==> EventTypeName(r.value) == text
    ensures r.None? ==> forall t :: EventTypeName(t) != text
  {
    if text == "ErrorDetected" then Some(ErrorDetected)
    else if text == "RebootStarted" then Some(RebootStarted)
    else if text == "RebootCompleted" then Some(RebootCompleted)
    else None
  }

  /** A status name written to the store parses back to the status written. */
  lemma StatusNameRoundTrip(s: SensorStatusEnum)
    ensures ParseStatus(StatusName(s)) == Some(s)
  {
  }

  /** A colour name written to the store parses back to the colour written. */
  lemma LedColorNameRoundTrip(c: LedColor)
    ensures ParseLedColor(LedColorName(c)) == Some(c)
  {
  }

  /** An event type name written to the store parses back to the type written. */
  lemma EventTypeNameRoundTrip(t: EventType)
    ensures ParseEventType(EventTypeName(t)) == Some(t)
  {
  }
}
