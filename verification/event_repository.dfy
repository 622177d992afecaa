/** The SensorEvents table and the queries and inserts the event repository
    issues against it. The table is append-only: the repository offers no
    update and no delete. EventType is stored as its enumeration name. */
module EventRepository {
  import opened Wrappers
  import opened Domain
  import opened Seqs

  /** A stored row: the event type is kept as text. There is no SensorId column. */
  datatype EventRow = EventRow(
    rowId: int,
    id: Guid,
    eventType: string,
    status: string,
    triggeredBy: string,
    timestamp: Instant,
    createdAt: Instant)

  /** The rows in RowId order and the RowId the next insert receives. */
  datatype EventTable = EventTable(rows: seq<EventRow>, nextRowId: int)

  /** The table as the schema creates it. */
  const EmptyTable := EventTable([], 1)

  /** A completed insert: the table afterwards and whether a row was affected. */
  datatype Written = Written(table: EventTable, affected: bool)

  function RowIdOf(row: EventRow): int { row.rowId }

  function EntityRowId(e: SensorEvent): int { e.rowId }

  predicate WellFormed(row: EventRow) {
    ParseEventType(row.eventType).Some?
  }

  predicate AllWellFormed(rows: seq<EventRow>) {
    forall row | row in rows :: WellFormed(row)
  }

  predicate IdTaken(rows: seq<EventRow>, id: Guid) {
    exists i | 0 <= i < |rows| :: rows[i].id == id
  }

  /** The table invariant: readable rows, kept by every writer storing
      enumeration names (the schema accepts any text there); RowIds assigned
      in increasing order below the counter (AUTOINCREMENT); unique Ids. */
  predicate Valid(t: EventTable) {
    && 1 <= t.nextRowId
    && AllWellFormed(t.rows)
    && (forall i | 0 <= i < |t.rows| :: 1 <= t.rows[i].rowId < t.nextRowId)
    && IncreasingBy(t.rows, RowIdOf)
    && (forall i, j | 0 <= i < j < |t.rows| :: t.rows[i].id != t.rows[j].id)
  }

  /** The row an insert stores for `e` under the given RowId. */
  function ToRow(e: SensorEvent, rowId: int): EventRow {
    EventRow(rowId, e.id, EventTypeName(e.eventType), e.status, e.triggeredBy, e.timestamp, e.createdAt)
  }

  /** Reading a row back: the event type name is parsed. */
  function ToEntity(row: EventRow): SensorEvent
    requires WellFormed(row)
  {
    SensorEvent(row.rowId, row.id, ParseEventType(row.eventType).value, row.status,
                row.triggeredBy, row.timestamp, row.createdAt)
  }

  function Entities(rows: seq<EventRow>): (r: seq<SensorEvent>)
    requires AllWellFormed(rows)
    ensures |r| == |rows|
    ensures forall i | 0 <= i < |rows| :: r[i] == ToEntity(rows[i])
  {
    seq(|rows|, i requires 0 <= i < |rows| => ToEntity(rows[i]))
  }

  /** A stored event reads back as the event that was written, with its RowId. */
  lemma StoredRowRoundTrip(e: SensorEvent, rowId: int)
    ensures WellFormed(ToRow(e, rowId))
    ensures ToEntity(ToRow(e, rowId)) == e.(rowId := rowId)
  {
    EventTypeNameRoundTrip(e.eventType);
  }

  lemma EntitiesDecreasing(rows: seq<EventRow>)
    requires AllWellFormed(rows)
    requires DecreasingBy(rows, RowIdOf)
    ensures DecreasingBy(Entities(rows), EntityRowId)
  {
  }

  lemma EntitiesPrefix(a: seq<EventRow>, b: seq<EventRow>)
    requires AllWellFormed(b)
    requires a <= b
    ensures AllWellFormed(a)
    ensures Entities(a) <= Entities(b)
  {
    assert forall i | 0 <= i < |a| :: a[i] == b[i];
  }

  lemma EntitiesAppend(a: seq<EventRow>, b: seq<EventRow>)
    requires AllWellFormed(a) && AllWellFormed(b)
    ensures AllWellFormed(a + b)
    ensures Entities(a + b) == Entities(a) + Entities(b)
  {
  }

  /** The position of the row with Id `id`. */
  function IndexOfId(rows: seq<EventRow>, id: Guid): (r: Option<nat>)
    ensures r.None? <==> !IdTaken(rows, id)
    ensures r.Some? ==> r.value < |rows| && rows[r.value].id == id
  {
    if |rows| == 0 then None
    else if rows[0].id == id then Some(0)
    else
      match IndexOfId(rows[1..], id)
      case None =>
        assert forall i | 1 <= i < |rows| :: rows[i] == rows[1..][i - 1];
        None
      case Some(k) => Some(k + 1)
  }

  /** `INSERT`: appends the event under the next RowId. A closed store or a
      reused Id makes the insert throw, and nothing is written. */
  function Create(t: EventTable, e: SensorEvent, storeUp: bool): (r: Result<Written, Fault>)
    requires Valid(t)
    ensures !storeUp ==> r == Failure(StoreUnavailable)
    ensures storeUp && IdTaken(t.rows, e.id) ==> r == Failure(UniqueViolation(e.id))
    ensures r.Success? <==> storeUp && !IdTaken(t.rows, e.id)
    ensures r.Success? ==> r.value.affected && Valid(r.value.table)
    ensures r.Success? ==>
              var rows := r.value.table.rows;
              && |rows| == |t.rows| + 1
              && rows[..|t.rows|] == t.rows
              && WellFormed(rows[|t.rows|])
              && ToEntity(rows[|t.rows|]) == e.(rowId := rows[|t.rows|].rowId)
              && (forall i | 0 <= i < |t.rows| :: t.rows[i].rowId < rows[|t.rows|].rowId)
  {
    if !storeUp then Failure(StoreUnavailable)
    else if IdTaken(t.rows, e.id) then Failure(UniqueViolation(e.id))
    else
      var row := ToRow(e, t.nextRowId);
      StoredRowRoundTrip(e, t.nextRowId);
      assert (t.rows + [row])[..|t.rows|] == t.rows;
      Success(Written(EventTable(t.rows + [row], t.nextRowId + 1), true))
  }

  /** `SELECT … WHERE Id = @Id`: the unique event with that Id, if any. */
  function GetById(t: EventTable, id: Guid): (r: Option<SensorEvent>)
    requires Valid(t)
    ensures r.None? <==> !IdTaken(t.rows, id)
    ensures forall i | 0 <= i < |t.rows| && t.rows[i].id == id :: r == Some(ToEntity(t.rows[i]))
  {
    match IndexOfId(t.rows, id)
    case None => None
    case Some(i) => Some(ToEntity(t.rows[i]))
  }

  /** The row filter of the listing query: everything, or one event type by name. */
  function Matches(filter: Option<EventType>): EventRow -> bool {
    (row: EventRow) => filter.None? || row.eventType == EventTypeName(filter.value)
  }

  /** A row passes the listing filter exactly when the event it reads back as
      has the requested type. */
  lemma MatchesByType(row: EventRow, filter: Option<EventType>)
    requires WellFormed(row)
    ensures Matches(filter)(row) <==> filter.None? || ToEntity(row).eventType == filter.value
  {
    if filter.Some? {
      EventTypeNameRoundTrip(filter.value);
    }
  }

  /** A selection of well-formed rows is well-formed. */
  lemma SelectionWellFormed(rows: seq<EventRow>, keep: EventRow -> bool)
    requires AllWellFormed(rows)
    ensures AllWellFormed(NewestFirst(rows, keep))
  {
  }

  /** Every entity a newest-first selection reads back is a stored row's. */
  lemma SelectedAreStored(rows: seq<EventRow>, keep: EventRow -> bool)
    requires AllWellFormed(rows) && AllWellFormed(NewestFirst(rows, keep))
    ensures var r := Entities(NewestFirst(rows, keep));
            forall k | 0 <= k < |r| :: exists i | 0 <= i < |rows| :: r[k] == ToEntity(rows[i])
  {
    var sel := NewestFirst(rows, keep);
    var r := Entities(sel);
    forall k | 0 <= k < |r| ensures exists i | 0 <= i < |rows| :: r[k] == ToEntity(rows[i]) {
      assert sel[k] in rows;
      var i :| 0 <= i < |rows| && rows[i] == sel[k];
      assert r[k] == ToEntity(rows[i]);
    }
  }

  /** Every stored row the selection keeps is read back by it. */
  lemma StoredAreSelected(rows: seq<EventRow>, keep: EventRow -> bool)
    requires AllWellFormed(rows) && AllWellFormed(NewestFirst(rows, keep))
    ensures var r := Entities(NewestFirst(rows, keep));
            forall i | 0 <= i < |rows| && keep(rows[i]) :: ToEntity(rows[i]) in r
  {
    var sel := NewestFirst(rows, keep);
    var r := Entities(sel);
    forall i | 0 <= i < |rows| && keep(rows[i]) ensures ToEntity(rows[i]) in r {
      assert rows[i] in sel;
      var k :| 0 <= k < |sel| && sel[k] == rows[i];
      assert r[k] == ToEntity(rows[i]);
    }
  }

  /** With a filter, the listing holds only events of the filtered type. */
  lemma ListingTyped(t: EventTable, filter: Option<EventType>)
    requires Valid(t) && AllWellFormed(NewestFirst(t.rows, Matches(filter)))
    ensures var r := Entities(NewestFirst(t.rows, Matches(filter)));
            forall k | 0 <= k < |r| :: filter.Some? ==> r[k].eventType == filter.value
  {
    var sel := NewestFirst(t.rows, Matches(filter));
    var r := Entities(sel);
    forall k | 0 <= k < |r| && filter.Some? ensures r[k].eventType == filter.value {
      MatchesByType(sel[k], filter);
    }
  }

  /** The listing holds every stored event of the filtered type (every event without a filter). */
  lemma ListingComplete(t: EventTable, filter: Option<EventType>)
    requires Valid(t) && AllWellFormed(NewestFirst(t.rows, Matches(filter)))
    ensures var r := Entities(NewestFirst(t.rows, Matches(filter)));
            forall i | 0 <= i < |t.rows| && (filter.None? || ToEntity(t.rows[i]).eventType == filter.value) ::
              ToEntity(t.rows[i]) in r
  {
    StoredAreSelected(t.rows, Matches(filter));
    forall i | 0 <= i < |t.rows| && (filter.None? || ToEntity(t.rows[i]).eventType == filter.value)
      ensures Matches(filter)(t.rows[i])
    {
      MatchesByType(t.rows[i], filter);
    }
  }

  /** Without a filter, the listing keeps every stored event. */
  lemma ListingUnfiltered(t: EventTable, filter: Option<EventType>)
    ensures filter.None? ==> |NewestFirst(t.rows, Matches(filter))| == |t.rows|
  {
    if filter.None? {
      NewestFirstAll(t.rows, Matches(filter));
    }
  }

  /** `SELECT * [WHERE EventType = @EventType] ORDER BY RowId DESC`. */
  function GetAll(t: EventTable, filter: Option<EventType>): (r: seq<SensorEvent>)
    requires Valid(t)
    ensures forall k | 0 <= k < |r| :: filter.Some? ==> r[k].eventType == filter.value
    ensures forall k | 0 <= k < |r| :: exists i | 0 <= i < |t.rows| :: r[k] == ToEntity(t.rows[i])
    ensures forall i | 0 <= i < |t.rows| && (filter.None? || ToEntity(t.rows[i]).eventType == filter.value) ::
              ToEntity(t.rows[i]) in r
    ensures filter.None? ==> |r| == |t.rows|
    ensures DecreasingBy(r, EntityRowId)
  {
    var sel := NewestFirst(t.rows, Matches(filter));
    SelectionWellFormed(t.rows, Matches(filter));
    ListingTyped(t, filter);
    SelectedAreStored(t.rows, Matches(filter));
    ListingComplete(t, filter);
    NewestFirstDecreasing(t.rows, Matches(filter), RowIdOf);
    EntitiesDecreasing(sel);
    ListingUnfiltered(t, filter);
    Entities(sel)
  }

  /** The row filter of the poll query. */
  function After(since: int): EventRow -> bool {
    (row: EventRow) => row.rowId > since
  }

  /** `… WHERE RowId > @SinceRowId ORDER BY RowId DESC`. */
  function GetNewSince(t: EventTable, since: int): (r: seq<SensorEvent>)
    requires Valid(t)
    ensures forall k | 0 <= k < |r| :: r[k].rowId > since
    ensures forall k | 0 <= k < |r| :: exists i | 0 <= i < |t.rows| :: r[k] == ToEntity(t.rows[i])
    ensures forall i | 0 <= i < |t.rows| && t.rows[i].rowId > since :: ToEntity(t.rows[i]) in r
    ensures DecreasingBy(r, EntityRowId)
  {
    var selected := NewestFirst(t.rows, After(since));
    SelectionWellFormed(t.rows, After(since));
    SelectedAreStored(t.rows, After(since));
    StoredAreSelected(t.rows, After(since));
    NewestFirstDecreasing(t.rows, After(since), RowIdOf);
    EntitiesDecreasing(selected);
    Entities(selected)
  }

  /** The entity-level counterpart of `Matches(Some(f))`. */
  function OfType(f: EventType): SensorEvent -> bool {
    (e: SensorEvent) => e.eventType == f
  }

  lemma {:induction false} EntitiesFilter(rows: seq<EventRow>, f: EventType)
    requires AllWellFormed(rows)
    ensures AllWellFormed(Filter(rows, Matches(Some(f))))
    ensures Entities(Filter(rows, Matches(Some(f)))) == Filter(Entities(rows), OfType(f))
  {
    if |rows| > 0 {
      EntitiesFilter(rows[1..], f);
      var es := Entities(rows);
      assert es[1..] == Entities(rows[1..]);
      assert es[0] == ToEntity(rows[0]);
      MatchesByType(rows[0], Some(f));
      var head := if Matches(Some(f))(rows[0]) then [rows[0]] else [];
      var rest := Filter(rows[1..], Matches(Some(f)));
      assert Filter(rows, Matches(Some(f))) == head + rest;
      EntitiesAppend(head, rest);
      assert Filter(es, OfType(f)) == (if OfType(f)(es[0]) then [es[0]] else []) + Filter(es[1..], OfType(f));
      assert Entities(head) == (if OfType(f)(es[0]) then [es[0]] else []);
    }
  }

  /** Filtering by a type yields exactly the unfiltered listing with the other
      types removed, in the same order. */
  lemma FilteredIsSubsequence(t: EventTable, f: EventType)
    requires Valid(t)
    ensures GetAll(t, Some(f)) == Filter(GetAll(t, None), OfType(f))
  {
    NewestFirstAll(t.rows, Matches(None));
    EntitiesFilter(Reverse(t.rows), f);
  }

  /** Polling from 0, the default cursor, returns the same events as the unfiltered listing. */
  lemma PollFromZeroIsAll(t: EventTable)
    requires Valid(t)
    ensures GetNewSince(t, 0) == GetAll(t, None)
  {
    NewestFirstAll(t.rows, After(0));
    NewestFirstAll(t.rows, Matches(None));
  }

  /** A later cursor returns a prefix of what an earlier cursor returns. */
  lemma PollPrefix(t: EventTable, lo: int, hi: int)
    requires Valid(t)
    requires lo <= hi
    ensures GetNewSince(t, hi) <= GetNewSince(t, lo)
  {
    NewestFirstThresholdPrefix(t.rows, RowIdOf, After(hi), After(lo), hi, lo);
    EntitiesPrefix(NewestFirst(t.rows, After(hi)), NewestFirst(t.rows, After(lo)));
  }

  /** Appending a row puts it, read back, in front of the poll's previous
      result when it is past the cursor, and changes nothing else. */
  lemma PollAppend(rows: seq<EventRow>, row: EventRow, since: int)
    requires AllWellFormed(rows) && WellFormed(row)
    ensures AllWellFormed(rows + [row])
    ensures Entities(NewestFirst(rows + [row], After(since)))
              == (if row.rowId > since then [ToEntity(row)] else [])
                 + Entities(NewestFirst(rows, After(since)))
  {
    var head := if row.rowId > since then [row] else [];
    var sel := NewestFirst(rows, After(since));
    NewestFirstAppend(rows, row, After(since));
    EntitiesAppend(head, sel);
    assert Entities(head) == (if row.rowId > since then [ToEntity(row)] else []);
  }

  /** An insert shows up at the head of every poll whose cursor is below its
      RowId and leaves the rest of the poll as it was: no stored event changes
      or disappears. */
  lemma PollAfterCreate(t: EventTable, e: SensorEvent, storeUp: bool, since: int)
    requires Valid(t)
    requires Create(t, e, storeUp).Success?
    ensures var t' := Create(t, e, storeUp).value.table;
            var added := e.(rowId := t.nextRowId);
            GetNewSince(t', since)
              == (if t.nextRowId > since then [added] else []) + GetNewSince(t, since)
  {
    var row := ToRow(e, t.nextRowId);
    var t' := Create(t, e, storeUp).value.table;
    assert t'.rows == t.rows + [row];
    StoredRowRoundTrip(e, t.nextRowId);
    PollAppend(t.rows, row, since);
  }
}
