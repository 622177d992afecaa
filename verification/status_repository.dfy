/** The SensorStatus table and the queries and writes the status repository
    issues against it. The table keeps its rows in RowId order together with
    the AUTOINCREMENT counter; Status and LedColor are stored as enumeration
    names and parsed back when a row is read. */
module StatusRepository {
  import opened Wrappers
  import opened Domain
  import opened Seqs

  /** A stored row: the enumerations are kept as text. */
  datatype StatusRow = StatusRow(
    rowId: int,
    id: Guid,
    sensorId: string,
    status: string,
    ledColor: string,
    changedOn: string,
    timestamp: Instant,
    createdAt: Instant,
    updatedAt: Instant)

  /** The rows in RowId order and the RowId the next insert receives. */
  datatype StatusTable = StatusTable(rows: seq<StatusRow>, nextRowId: int)

  /** The table as the schema creates it. */
  const EmptyTable := StatusTable([], 1)

  /** A completed write: the table afterwards and whether a row was affected. */
  datatype Written = Written(table: StatusTable, affected: bool)

  function RowIdOf(row: StatusRow): int { row.rowId }

  function EntityRowId(s: SensorStatus): int { s.rowId }

  /** Every enumeration column holds a name that parses back. */
  predicate WellFormed(row: StatusRow) {
    ParseStatus(row.status).Some? && ParseLedColor(row.ledColor).Some?
  }

  predicate AllWellFormed(rows: seq<StatusRow>) {
    forall row | row in rows :: WellFormed(row)
  }

  predicate IdTaken(rows: seq<StatusRow>, id: Guid) {
    exists i | 0 <= i < |rows| :: rows[i].id == id
  }

  /** The table invariant: readable rows, kept by every writer storing
      enumeration names (the schema accepts any text there); RowIds assigned
      in increasing order below the counter (AUTOINCREMENT); unique Ids. */
  predicate Valid(t: StatusTable) {
    && 1 <= t.nextRowId
    && AllWellFormed(t.rows)
    && (forall i | 0 <= i < |t.rows| :: 1 <= t.rows[i].rowId < t.nextRowId)
    && IncreasingBy(t.rows, RowIdOf)
    && (forall i, j | 0 <= i < j < |t.rows| :: t.rows[i].id != t.rows[j].id)
  }

  /** The row an insert stores for `s` under the given RowId. */
  function ToRow(s: SensorStatus, rowId: int): StatusRow {
    StatusRow(rowId, s.id, s.sensorId, StatusName(s.status), LedColorName(s.ledColor),
              s.changedOn, s.timestamp, s.createdAt, s.updatedAt)
  }

  /** Reading a row back: the enumeration names are parsed. */
  function ToEntity(row: StatusRow): SensorStatus
    requires WellFormed(row)
  {
    SensorStatus(row.rowId, row.id, row.sensorId, ParseStatus(row.status).value,
                 ParseLedColor(row.ledColor).value, row.changedOn, row.timestamp,
                 row.createdAt, row.updatedAt)
  }

  function Entities(rows: seq<StatusRow>): (r: seq<SensorStatus>)
    requires AllWellFormed(rows)
    ensures |r| == |rows|
    ensures forall i | 0 <= i < |rows| :: r[i] == ToEntity(rows[i])
  {
    seq(|rows|, i requires 0 <= i < |rows| => ToEntity(rows[i]))
  }

  /** A stored status reads back as the status that was written, with its RowId. */
  lemma StoredRowRoundTrip(s: SensorStatus, rowId: int)
    ensures WellFormed(ToRow(s, rowId))
    ensures ToEntity(ToRow(s, rowId)) == s.(rowId := rowId)
  {
    StatusNameRoundTrip(s.status);
    LedColorNameRoundTrip(s.ledColor);
  }

  lemma EntitiesDecreasing(rows: seq<StatusRow>)
    requires AllWellFormed(rows)
    requires DecreasingBy(rows, RowIdOf)
    ensures DecreasingBy(Entities(rows), EntityRowId)
  {
  }

  lemma EntitiesPrefix(a: seq<StatusRow>, b: seq<StatusRow>)
    requires AllWellFormed(b)
    requires a <= b
    ensures AllWellFormed(a)
    ensures Entities(a) <= Entities(b)
  {
    assert forall i | 0 <= i < |a| :: a[i] == b[i];
  }

  lemma EntitiesAppend(a: seq<StatusRow>, b: seq<StatusRow>)
    requires AllWellFormed(a) && AllWellFormed(b)
    ensures AllWellFormed(a + b)
    ensures Entities(a + b) == Entities(a) + Entities(b)
  {
  }

  /** The position of the row with Id `id`. */
  function IndexOfId(rows: seq<StatusRow>, id: Guid): (r: Option<nat>)
    ensures r.None? <==> !IdTaken(rows, id)
    ensures r.Some? ==> r.value < |rows| && rows[r.value].id == id
  {
    if |rows| == 0 then None
    else if rows[0].id == id then Some(0)
    else
      match IndexOfId(rows[1..], id)
      case None =>
        assert forall i | 1 <= i < |rows| :: rows[i] == rows[1..][i - 1];
        None
      case Some(k) => Some(k + 1)
  }

  /** The position of a row for `sensorId` with the greatest Timestamp; among
      equal Timestamps the later row is taken. */
  function LatestIndex(rows: seq<StatusRow>, sensorId: string): (r: Option<nat>)
    ensures r.None? <==> forall i | 0 <= i < |rows| :: rows[i].sensorId != sensorId
    ensures r.Some? ==> r.value < |rows| && rows[r.value].sensorId == sensorId
    ensures r.Some? ==> forall i | 0 <= i < |rows| && rows[i].sensorId == sensorId ::
                          rows[i].timestamp <= rows[r.value].timestamp
  {
    if |rows| == 0 then None
    else
      var last := rows[|rows| - 1];
      var earlier := LatestIndex(rows[..|rows| - 1], sensorId);
      assert forall i | 0 <= i < |rows| - 1 :: rows[i] == rows[..|rows| - 1][i];
      if last.sensorId != sensorId then earlier
      else if earlier.Some? && rows[earlier.value].timestamp > last.timestamp then earlier
      else Some(|rows| - 1)
  }

  /** `INSERT`: appends the status under the next RowId. A closed store or a
      reused Id makes the insert throw, and nothing is written. */
  function Create(t: StatusTable, s: SensorStatus, storeUp: bool): (r: Result<Written, Fault>)
    requires Valid(t)
    ensures !storeUp ==> r == Failure(StoreUnavailable)
    ensures storeUp && IdTaken(t.rows, s.id) ==> r == Failure(UniqueViolation(s.id))
    ensures r.Success? <==> storeUp && !IdTaken(t.rows, s.id)
    ensures r.Success? ==> r.value.affected && Valid(r.value.table)
    ensures r.Success? ==>
              var rows := r.value.table.rows;
              && |rows| == |t.rows| + 1
              && rows[..|t.rows|] == t.rows
              && WellFormed(rows[|t.rows|])
              && ToEntity(rows[|t.rows|]) == s.(rowId := rows[|t.rows|].rowId)
              && (forall i | 0 <= i < |t.rows| :: t.rows[i].rowId < rows[|t.rows|].rowId)
  {
    if !storeUp then Failure(StoreUnavailable)
    else if IdTaken(t.rows, s.id) then Failure(UniqueViolation(s.id))
    else
      var row := ToRow(s, t.nextRowId);
      StoredRowRoundTrip(s, t.nextRowId);
      assert (t.rows + [row])[..|t.rows|] == t.rows;
      Success(Written(StatusTable(t.rows + [row], t.nextRowId + 1), true))
  }

  /** `SELECT … WHERE Id = @Id`: the unique row with that Id, if any. */
  function GetById(t: StatusTable, id: Guid): (r: Option<SensorStatus>)
    requires Valid(t)
    ensures r.None? <==> !IdTaken(t.rows, id)
    ensures forall i | 0 <= i < |t.rows| && t.rows[i].id == id :: r == Some(ToEntity(t.rows[i]))
  {
    match IndexOfId(t.rows, id)
    case None => None
    case Some(i) => Some(ToEntity(t.rows[i]))
  }

  /** `SELECT * ORDER BY RowId DESC`: every row, newest first. */
  function GetAll(t: StatusTable): (r: seq<SensorStatus>)
    requires Valid(t)
    ensures |r| == |t.rows|
    ensures forall i | 0 <= i < |t.rows| :: ToEntity(t.rows[i]) in r
    ensures DecreasingBy(r, EntityRowId)
  {
    ReverseIncreasing(t.rows, RowIdOf);
    EntitiesDecreasing(Reverse(t.rows));
    Entities(Reverse(t.rows))
  }

  /** `… WHERE SensorId = @SensorId ORDER BY Timestamp DESC LIMIT 1`. */
  function GetCurrentBySensorId(t: StatusTable, sensorId: string): (r: Option<SensorStatus>)
    requires Valid(t)
    ensures r.None? <==> forall i | 0 <= i < |t.rows| :: t.rows[i].sensorId != sensorId
    ensures r.Some? ==> r.value.sensorId == sensorId
    ensures r.Some? ==> exists i | 0 <= i < |t.rows| :: r.value == ToEntity(t.rows[i])
    ensures r.Some? ==> forall i | 0 <= i < |t.rows| && t.rows[i].sensorId == sensorId ::
                          t.rows[i].timestamp <= r.value.timestamp
  {
    match LatestIndex(t.rows, sensorId)
    case None => None
    case Some(i) => Some(ToEntity(t.rows[i]))
  }

  /** A selection of well-formed rows is well-formed. */
  lemma SelectionWellFormed(rows: seq<StatusRow>, keep: StatusRow -> bool)
    requires AllWellFormed(rows)
    ensures AllWellFormed(NewestFirst(rows, keep))
  {
  }

  /** Every entity a newest-first selection reads back is a stored row's. */
  lemma SelectedAreStored(rows: seq<StatusRow>, keep: StatusRow -> bool)
    requires AllWellFormed(rows) && AllWellFormed(NewestFirst(rows, keep))
    ensures var r := Entities(NewestFirst(rows, keep));
            forall k | 0 <= k < |r| :: exists i | 0 <= i < |rows| :: r[k] == ToEntity(rows[i])
  {
    var sel := NewestFirst(rows, keep);
    var r := Entities(sel);
    forall k | 0 <= k < |r| ensures exists i | 0 <= i < |rows| :: r[k] == ToEntity(rows[i]) {
      assert sel[k] in rows;
      var i :| 0 <= i < |rows| && rows[i] == sel[k];
      assert r[k] == ToEntity(rows[i]);
    }
  }

  /** Every stored row the selection keeps is read back by it. */
  lemma StoredAreSelected(rows: seq<StatusRow>, keep: StatusRow -> bool)
    requires AllWellFormed(rows) && AllWellFormed(NewestFirst(rows, keep))
    ensures var r := Entities(NewestFirst(rows, keep));
            forall i | 0 <= i < |rows| && keep(rows[i]) :: ToEntity(rows[i]) in r
  {
    var sel := NewestFirst(rows, keep);
    var r := Entities(sel);
    forall i | 0 <= i < |rows| && keep(rows[i]) ensures ToEntity(rows[i]) in r {
      assert rows[i] in sel;
      var k :| 0 <= k < |sel| && sel[k] == rows[i];
      assert r[k] == ToEntity(rows[i]);
    }
  }

  /** The row filter of the poll query. */
  function After(since: int): StatusRow -> bool {
    (row: StatusRow) => row.rowId > since
  }

  /** `… WHERE RowId > @SinceRowId ORDER BY RowId DESC`. */
  function GetNewSince(t: StatusTable, since: int): (r: seq<SensorStatus>)
    requires Valid(t)
    ensures forall k | 0 <= k < |r| :: r[k].rowId > since
    ensures forall k | 0 <= k < |r| :: exists i | 0 <= i < |t.rows| :: r[k] == ToEntity(t.rows[i])
    ensures forall i | 0 <= i < |t.rows| && t.rows[i].rowId > since :: ToEntity(t.rows[i]) in r
    ensures DecreasingBy(r, EntityRowId)
  {
    var selected := NewestFirst(t.rows, After(since));
    SelectionWellFormed(t.rows, After(since));
    SelectedAreStored(t.rows, After(since));
    StoredAreSelected(t.rows, After(since));
    NewestFirstDecreasing(t.rows, After(since), RowIdOf);
    EntitiesDecreasing(selected);
    Entities(selected)
  }

  /** `UPDATE … WHERE Id = @Id`: overwrites SensorId, Status, LedColor,
      ChangedOn, Timestamp and UpdatedAt of the row with that Id; reports
      whether such a row existed. */
  function Update(t: StatusTable, id: Guid, s: SensorStatus, storeUp: bool): (r: Result<Written, Fault>)
    requires Valid(t)
    ensures r.Failure? <==> !storeUp
    ensures r.Failure? ==> r.error == StoreUnavailable
    ensures r.Success? ==>
              && Valid(r.value.table)
              && r.value.table.nextRowId == t.nextRowId
              && |r.value.table.rows| == |t.rows|
    ensures r.Success? ==> (r.value.affected <==> IdTaken(t.rows, id))
    ensures r.Success? && !r.value.affected ==> r.value.table == t
    ensures r.Success? ==>
              forall i | 0 <= i < |t.rows| ::
                if t.rows[i].id == id then
                  ToEntity(r.value.table.rows[i])
                    == s.(rowId := t.rows[i].rowId, id := id, createdAt := t.rows[i].createdAt)
                else r.value.table.rows[i] == t.rows[i]
  {
    if !storeUp then Failure(StoreUnavailable)
    else
      match IndexOfId(t.rows, id)
      case None => Success(Written(t, false))
      case Some(i) =>
        var prior := t.rows[i];
        var row := prior.(sensorId := s.sensorId, status := StatusName(s.status),
                          ledColor := LedColorName(s.ledColor), changedOn := s.changedOn,
                          timestamp := s.timestamp, updatedAt := s.updatedAt);
        StatusNameRoundTrip(s.status);
        LedColorNameRoundTrip(s.ledColor);
        var rows := t.rows[i := row];
        assert IncreasingBy(rows, RowIdOf) by {
          assert forall k | 0 <= k < |rows| :: rows[k].rowId == t.rows[k].rowId;
        }
        Success(Written(StatusTable(rows, t.nextRowId), true))
  }

  /** Polling from 0, the default cursor, returns the same rows as listing them all. */
  lemma PollFromZeroIsAll(t: StatusTable)
    requires Valid(t)
    ensures GetNewSince(t, 0) == GetAll(t)
  {
    NewestFirstAll(t.rows, After(0));
  }

  /** A later cursor returns a prefix of what an earlier cursor returns: the
      newest rows, with nothing new and nothing reordered. */
  lemma PollPrefix(t: StatusTable, lo: int, hi: int)
    requires Valid(t)
    requires lo <= hi
    ensures GetNewSince(t, hi) <= GetNewSince(t, lo)
  {
    NewestFirstThresholdPrefix(t.rows, RowIdOf, After(hi), After(lo), hi, lo);
    EntitiesPrefix(NewestFirst(t.rows, After(hi)), NewestFirst(t.rows, After(lo)));
  }

  /** Appending a row puts it, read back, in front of the poll's previous
      result when it is past the cursor, and changes nothing else. */
  lemma PollAppend(rows: seq<StatusRow>, row: StatusRow, since: int)
    requires AllWellFormed(rows) && WellFormed(row)
    ensures AllWellFormed(rows + [row])
    ensures Entities(NewestFirst(rows + [row], After(since)))
              == (if row.rowId > since then [ToEntity(row)] else [])
                 + Entities(NewestFirst(rows, After(since)))
  {
    var head := if row.rowId > since then [row] else [];
    var sel := NewestFirst(rows, After(since));
    NewestFirstAppend(rows, row, After(since));
    EntitiesAppend(head, sel);
    assert Entities(head) == (if row.rowId > since then [ToEntity(row)] else []);
  }

  /** An insert shows up at the head of every poll whose cursor is below its
      RowId and leaves the rest of the poll as it was. */
  lemma PollAfterCreate(t: StatusTable, s: SensorStatus, storeUp: bool, since: int)
    requires Valid(t)
    requires Create(t, s, storeUp).Success?
    ensures var t' := Create(t, s, storeUp).value.table;
            var added := s.(rowId := t.nextRowId);
            GetNewSince(t', since)
              == (if t.nextRowId > since then [added] else []) + GetNewSince(t, since)
  {
    var row := ToRow(s, t.nextRowId);
    var t' := Create(t, s, storeUp).value.table;
    assert t'.rows == t.rows + [row];
    StoredRowRoundTrip(s, t.nextRowId);
    PollAppend(t.rows, row, since);
  }
}
