/** The SQLite backend: two tables, with JSON text in three of the columns. */
module Sqlite {
  import opened Results
  import opened Text
  import opened Values
  import opened CharTables
  import opened Ranking
  import opened Contract

  /** `json.dumps` and `json.loads` on the three kinds of value a column holds. */
  datatype Json = Json(
    dumpTexts: Texts -> string, loadTexts: string -> Texts,
    dumpFields: Fields -> string, loadFields: string -> Fields,
    dumpSystem: System -> string, loadSystem: string -> System
  )

  ghost predicate RoundTrips(json: Json) {
    && (forall x :: json.loadTexts(json.dumpTexts(x)) == x)
    && (forall x :: json.loadFields(json.dumpFields(x)) == x)
    && (forall x :: json.loadSystem(json.dumpSystem(x)) == x)
  }

  /** A row of the table `memories`. */
  datatype Row = Row(
    rowid: nat,
    id: string,
    userId: string,
    content: string,
    scope: string,
    metadata: string,
    system: string,
    createdAt: string,
    updatedAt: Option<string>
  )

  /** A row of the table `history`. */
  datatype Event = Event(
    seqNo: nat,
    memoryId: string,
    action: Action,
    timestamp: string,
    before: Option<string>,
    after: Option<string>,
    author: Option<string>
  )

  function ToMemory(json: Json, row: Row): Memory {
    Memory(row.id, row.content, json.loadTexts(row.scope), json.loadFields(row.metadata),
           row.createdAt, row.updatedAt, row.userId, json.loadSystem(row.system))
  }

  function ToEntry(e: Event): HistoryEntry {
    HistoryEntry(e.action, e.timestamp, e.before, e.after, e.author)
  }

  /** `SELECT * FROM history WHERE memory_id = ? ORDER BY seq` */
  function EventsOf(events: seq<Event>, id: string): seq<HistoryEntry> {
    if events == [] then []
    else if events[0].memoryId == id then [ToEntry(events[0])] + EventsOf(events[1..], id)
    else EventsOf(events[1..], id)
  }

  /** The tables as one list, in rowid order. */
  function ViewOf(json: Json, rows: seq<Row>, events: seq<Event>): Store {
    if rows == [] then []
    else [Record(ToMemory(json, rows[0]), EventsOf(events, rows[0].id))] + ViewOf(json, rows[1..], events)
  }

  /** A table kept in the order of its integer key, so that reading it in turn is `ORDER BY`. */
  ghost predicate OrderedRows(rows: seq<Row>) {
    && (forall i, j :: 0 <= i < j < |rows| ==> rows[i].rowid < rows[j].rowid)
    && (forall i, j :: 0 <= i < j < |rows| ==> rows[i].id != rows[j].id)
  }

  ghost predicate HasRow(rows: seq<Row>, id: string) {
    exists i :: 0 <= i < |rows| && rows[i].id == id
  }

  /** Every history row belongs to a memory that is still there. */
  ghost predicate Anchored(rows: seq<Row>, events: seq<Event>) {
    forall i :: 0 <= i < |events| ==> HasRow(rows, events[i].memoryId)
  }

  ghost predicate OrderedEvents(events: seq<Event>, nextSeq: nat) {
    && (forall i, j :: 0 <= i < j < |events| ==> events[i].seqNo < events[j].seqNo)
    && (forall i :: 0 <= i < |events| ==> events[i].seqNo < nextSeq)
  }

  function NextRowid(rows: seq<Row>): nat {
    if rows == [] then 1 else rows[|rows| - 1].rowid + 1
  }

  /** `SELECT * FROM memories WHERE id = ? AND user_id = ?` */
  function OwnedRow(rows: seq<Row>, partition: string, id: string): Option<Row> {
    if rows == [] then None
    else if rows[0].id == id && rows[0].userId == partition then Some(rows[0])
    else OwnedRow(rows[1..], partition, id)
  }

  /** `UPDATE memories SET ... WHERE id = ?` */
  function UpdateRows(rows: seq<Row>, id: string, content: string, now: string, metadata: string,
      system: string): seq<Row> {
    seq(|rows|, i requires 0 <= i < |rows| =>
      if rows[i].id == id then rows[i].(content := content, updatedAt := Some(now), metadata := metadata, system := system)
      else rows[i])
  }

  /** `DELETE FROM memories WHERE id IN (...)` */
  function DeleteRows(rows: seq<Row>, ids: set<string>): seq<Row> {
    if rows == [] then []
    else if rows[0].id in ids then DeleteRows(rows[1..], ids)
    else [rows[0]] + DeleteRows(rows[1..], ids)
  }

  /** `DELETE FROM history WHERE memory_id IN (...)` */
  function DeleteEvents(events: seq<Event>, ids: set<string>): seq<Event> {
    if events == [] then []
    else if events[0].memoryId in ids then DeleteEvents(events[1..], ids)
    else [events[0]] + DeleteEvents(events[1..], ids)
  }

  // ---------- The history table seen from one memory ----------

  lemma {:induction false} EventsSnoc(events: seq<Event>, e: Event, id: string)
    ensures EventsOf(events + [e], id) ==
      if e.memoryId == id then EventsOf(events, id) + [ToEntry(e)] else EventsOf(events, id)
    decreases |events|
  {
    if events == [] {
      assert events + [e] == [e];
    } else {
      assert (events + [e])[1..] == events[1..] + [e];
      EventsSnoc(events[1..], e, id);
    }
  }

  lemma {:induction false} EventsDeleted(events: seq<Event>, ids: set<string>, id: string)
    ensures EventsOf(DeleteEvents(events, ids), id) == if id in ids then [] else EventsOf(events, id)
    decreases |events|
  {
    if events != [] {
      EventsDeleted(events[1..], ids, id);
      if events[0].memoryId !in ids {
        assert DeleteEvents(events, ids)[1..] == DeleteEvents(events[1..], ids);
      }
    }
  }

  ghost predicate Sub(small: seq<Event>, big: seq<Event>) {
    forall e :: e in small ==> e in big
  }

  lemma {:induction false} DeletedEventsOrdered(events: seq<Event>, ids: set<string>, nextSeq: nat)
    requires OrderedEvents(events, nextSeq)
    ensures OrderedEvents(DeleteEvents(events, ids), nextSeq) && Sub(DeleteEvents(events, ids), events)
    decreases |events|
  {
    if events != [] {
      DeletedEventsOrdered(events[1..], ids, nextSeq);
      assert events == [events[0]] + events[1..];
      if events[0].memoryId !in ids {
        OrderedBefore(events[0], events[1..], DeleteEvents(events[1..], ids), nextSeq);
      }
    }
  }

  lemma OrderedBefore(e: Event, events: seq<Event>, left: seq<Event>, nextSeq: nat)
    requires e.seqNo < nextSeq && forall i :: 0 <= i < |events| ==> e.seqNo < events[i].seqNo
    requires OrderedEvents(left, nextSeq) && Sub(left, events)
    ensures OrderedEvents([e] + left, nextSeq) && Sub([e] + left, [e] + events)
  {
    forall i | 0 <= i < |left|
      ensures e.seqNo < left[i].seqNo
    {
      assert left[i] in events;
    }
  }

  lemma {:induction false} NoEvents(events: seq<Event>, id: string)
    requires forall i :: 0 <= i < |events| ==> events[i].memoryId != id
    ensures EventsOf(events, id) == []
    decreases |events|
  {
    if events != [] {
      NoEvents(events[1..], id);
    }
  }

  // ---------- The rows seen as a list ----------

  lemma {:induction false} ViewFrame(json: Json, rows: seq<Row>, events: seq<Event>, events': seq<Event>)
    requires forall i :: 0 <= i < |rows| ==> EventsOf(events, rows[i].id) == EventsOf(events', rows[i].id)
    ensures ViewOf(json, rows, events) == ViewOf(json, rows, events')
    decreases |rows|
  {
    if rows != [] {
      ViewFrame(json, rows[1..], events, events');
    }
  }

  lemma {:induction false} ViewSnoc(json: Json, rows: seq<Row>, events: seq<Event>, row: Row)
    ensures ViewOf(json, rows + [row], events) ==
      ViewOf(json, rows, events) + [Record(ToMemory(json, row), EventsOf(events, row.id))]
    decreases |rows|
  {
    if rows == [] {
      assert rows + [row] == [row];
    } else {
      assert (rows + [row])[1..] == rows[1..] + [row];
      ViewSnoc(json, rows[1..], events, row);
    }
  }

  lemma {:induction false} ViewLookup(json: Json, rows: seq<Row>, events: seq<Event>, partition: string, id: string)
    ensures
      var found := OwnedRow(rows, partition, id);
      && (found.Some? ==> found.value in rows && found.value.id == id && found.value.userId == partition)
      && Lookup(ViewOf(json, rows, events), partition, id) ==
        if found.None? then None else Some(Record(ToMemory(json, found.value), EventsOf(events, id)))
    decreases |rows|
  {
    if rows != [] {
      ViewLookup(json, rows[1..], events, partition, id);
    }
  }

  lemma {:induction false} UpdateAbsent(rows: seq<Row>, id: string, content: string, now: string, metadata: string,
      system: string)
    requires forall i :: 0 <= i < |rows| ==> rows[i].id != id
    ensures UpdateRows(rows, id, content, now, metadata, system) == rows
  {
  }

  lemma {:induction false} ViewReplace(json: Json, rows: seq<Row>, events: seq<Event>, partition: string, row: Row,
    change: Change, now: string, content: string, metadata: string, system: string, e: Event)
    requires OrderedRows(rows) && OwnedRow(rows, partition, row.id) == Some(row) && row.userId == partition
    requires e.memoryId == row.id
    requires Record(ToMemory(json, row.(content := content, updatedAt := Some(now), metadata := metadata, system := system)),
                    EventsOf(events, row.id) + [ToEntry(e)])
      == Contract.Changed(Record(ToMemory(json, row), EventsOf(events, row.id)), change, now)
    ensures ViewOf(json, UpdateRows(rows, row.id, content, now, metadata, system), events + [e])
      == Replace(ViewOf(json, rows, events), partition, row.id, change, now)
    decreases |rows|
  {
    var rows' := UpdateRows(rows, row.id, content, now, metadata, system);
    assert rows'[1..] == UpdateRows(rows[1..], row.id, content, now, metadata, system);
    EventsSnoc(events, e, rows[0].id);
    if rows[0].id == row.id {
      ViewLookup(json, rows[1..], events, partition, row.id);
      UpdateAbsent(rows[1..], row.id, content, now, metadata, system);
      forall i | 0 <= i < |rows[1..]| {
        EventsSnoc(events, e, rows[1..][i].id);
      }
      ViewFrame(json, rows[1..], events, events + [e]);
    } else {
      ViewReplace(json, rows[1..], events, partition, row, change, now, content, metadata, system, e);
    }
  }

  lemma {:induction false} DeleteAbsent(rows: seq<Row>, ids: set<string>)
    requires forall i :: 0 <= i < |rows| ==> rows[i].id !in ids
    ensures DeleteRows(rows, ids) == rows
    decreases |rows|
  {
    if rows != [] {
      DeleteAbsent(rows[1..], ids);
    }
  }

  lemma {:induction false} DeletedRowsAre(rows: seq<Row>, ids: set<string>, row: Row)
    ensures row in DeleteRows(rows, ids) <==> row in rows && row.id !in ids
    decreases |rows|
  {
    if rows != [] {
      DeletedRowsAre(rows[1..], ids, row);
    }
  }

  lemma {:induction false} DeletedRowsOrdered(rows: seq<Row>, ids: set<string>)
    requires OrderedRows(rows)
    ensures OrderedRows(DeleteRows(rows, ids))
    decreases |rows|
  {
    if rows != [] {
      DeletedRowsOrdered(rows[1..], ids);
      var rest := DeleteRows(rows[1..], ids);
      forall i | 0 <= i < |rest|
        ensures rows[0].rowid < rest[i].rowid && rows[0].id != rest[i].id
      {
        DeletedRowsAre(rows[1..], ids, rest[i]);
      }
    }
  }

  lemma {:induction false} ViewDeleted(json: Json, rows: seq<Row>, events: seq<Event>, ids: set<string>)
    ensures ViewOf(json, DeleteRows(rows, ids), DeleteEvents(events, ids)) ==
      ViewOf(json, DeleteRows(rows, ids), events)
  {
    var left := DeleteRows(rows, ids);
    forall i | 0 <= i < |left|
      ensures EventsOf(DeleteEvents(events, ids), left[i].id) == EventsOf(events, left[i].id)
    {
      DeletedRowsAre(rows, ids, left[i]);
      EventsDeleted(events, ids, left[i].id);
    }
    ViewFrame(json, left, DeleteEvents(events, ids), events);
  }

  lemma {:induction false} ViewRemove(json: Json, rows: seq<Row>, events: seq<Event>, partition: string, row: Row)
    requires OrderedRows(rows) && OwnedRow(rows, partition, row.id) == Some(row) && row.userId == partition
    ensures ViewOf(json, DeleteRows(rows, {row.id}), events) == Remove(ViewOf(json, rows, events), partition, row.id)
    decreases |rows|
  {
    if rows[0].id == row.id {
      ViewLookup(json, rows[1..], events, partition, row.id);
      DeleteAbsent(rows[1..], {row.id});
    } else {
      ViewRemove(json, rows[1..], events, partition, row);
      assert DeleteRows(rows, {row.id})[1..] == DeleteRows(rows[1..], {row.id});
    }
  }

  predicate DoomedRow(json: Json, row: Row, partition: string, scope: Fields) {
    row.userId == partition && ScopeMatches(json.loadTexts(row.scope), scope)
  }

  /** The ids `delete_all` collects before it deletes. */
  function DoomedIds(json: Json, rows: seq<Row>, partition: string, scope: Fields): seq<string> {
    if rows == [] then []
    else if DoomedRow(json, rows[0], partition, scope) then [rows[0].id] + DoomedIds(json, rows[1..], partition, scope)
    else DoomedIds(json, rows[1..], partition, scope)
  }

  lemma {:induction false} DoomedIdsAre(json: Json, rows: seq<Row>, partition: string, scope: Fields, row: Row)
    requires OrderedRows(rows) && row in rows
    ensures row.id in DoomedIds(json, rows, partition, scope) <==> DoomedRow(json, row, partition, scope)
    decreases |rows|
  {
    if row == rows[0] {
      if row.id in DoomedIds(json, rows[1..], partition, scope) {
        DoomedIdsAreIds(json, rows[1..], partition, scope, row.id);
      }
    } else {
      DoomedIdsAre(json, rows[1..], partition, scope, row);
    }
  }

  lemma {:induction false} DoomedIdsAreIds(json: Json, rows: seq<Row>, partition: string, scope: Fields, id: string)
    requires id in DoomedIds(json, rows, partition, scope)
    ensures exists i :: 0 <= i < |rows| && rows[i].id == id
    decreases |rows|
  {
    if !(DoomedRow(json, rows[0], partition, scope) && id == rows[0].id) {
      DoomedIdsAreIds(json, rows[1..], partition, scope, id);
      var i :| 0 <= i < |rows[1..]| && rows[1..][i].id == id;
      assert rows[i + 1].id == id;
    }
  }

  lemma {:induction false} ViewSurvivors(json: Json, rows: seq<Row>, events: seq<Event>, partition: string,
      scope: Fields, ids: set<string>)
    requires forall i :: 0 <= i < |rows| ==> (rows[i].id in ids <==> DoomedRow(json, rows[i], partition, scope))
    ensures ViewOf(json, DeleteRows(rows, ids), events) == Survivors(ViewOf(json, rows, events), partition, scope)
    decreases |rows|
  {
    if rows != [] {
      ViewSurvivors(json, rows[1..], events, partition, scope, ids);
      if rows[0].id !in ids {
        assert DeleteRows(rows, ids)[1..] == DeleteRows(rows[1..], ids);
      }
    }
  }

  lemma {:induction false} DoomedCount(json: Json, rows: seq<Row>, events: seq<Event>, partition: string, scope: Fields)
    ensures
      var view := ViewOf(json, rows, events);
      |DoomedIds(json, rows, partition, scope)| == |view| - |Survivors(view, partition, scope)|
    decreases |rows|
  {
    if rows != [] {
      DoomedCount(json, rows[1..], events, partition, scope);
    }
  }

  /** `SELECT * FROM memories WHERE user_id = ? ORDER BY rowid`, then the scope filter. */
  function ListRows(json: Json, rows: seq<Row>, partition: string, scope: Option<Fields>): seq<Memory> {
    if rows == [] then []
    else if rows[0].userId == partition && (scope.None? || ScopeMatches(json.loadTexts(rows[0].scope), scope.value)) then
      [ToMemory(json, rows[0])] + ListRows(json, rows[1..], partition, scope)
    else ListRows(json, rows[1..], partition, scope)
  }

  lemma {:induction false} ViewListing(json: Json, rows: seq<Row>, events: seq<Event>, partition: string,
      scope: Option<Fields>)
    ensures ListRows(json, rows, partition, scope) == Listing(ViewOf(json, rows, events), partition, scope)
    decreases |rows|
  {
    if rows != [] {
      ViewListing(json, rows[1..], events, partition, scope);
    }
  }

  // ---------- What each statement keeps ----------

  lemma {:induction false} FreshRows(json: Json, rows: seq<Row>, events: seq<Event>, id: string)
    requires Fresh(ViewOf(json, rows, events), id)
    ensures forall i :: 0 <= i < |rows| ==> rows[i].id != id
    decreases |rows|
  {
    if rows != [] {
      var view := ViewOf(json, rows, events);
      assert view[0].memory.id == rows[0].id;
      assert forall i :: 0 <= i < |view[1..]| ==> view[1..][i] == view[i + 1];
      FreshRows(json, rows[1..], events, id);
    }
  }

  lemma InsertKeeps(rows: seq<Row>, events: seq<Event>, row: Row, e: Event)
    requires OrderedRows(rows) && Anchored(rows, events) && row.rowid == NextRowid(rows) && e.memoryId == row.id
    requires forall i :: 0 <= i < |rows| ==> rows[i].id != row.id
    ensures OrderedRows(rows + [row]) && Anchored(rows + [row], events + [e])
    ensures EventsOf(events, row.id) == []
  {
    assert (rows + [row])[|rows|].id == row.id;
    forall i | 0 <= i < |events|
      ensures events[i].memoryId != row.id && HasRow(rows + [row], events[i].memoryId)
    {
      assert HasRow(rows, events[i].memoryId);
      var k :| 0 <= k < |rows| && rows[k].id == events[i].memoryId;
      assert (rows + [row])[k].id == events[i].memoryId;
    }
    NoEvents(events, row.id);
  }

  lemma {:induction false} ViewInserted(json: Json, rows: seq<Row>, events: seq<Event>, row: Row, e: Event)
    requires e.memoryId == row.id && EventsOf(events, row.id) == []
    requires forall i :: 0 <= i < |rows| ==> rows[i].id != row.id
    ensures ViewOf(json, rows + [row], events + [e]) ==
      ViewOf(json, rows, events) + [Record(ToMemory(json, row), [ToEntry(e)])]
  {
    EventsSnoc(events, e, row.id);
    assert [] + [ToEntry(e)] == [ToEntry(e)];
    forall i | 0 <= i < |rows|
      ensures EventsOf(events + [e], rows[i].id) == EventsOf(events, rows[i].id)
    {
      EventsSnoc(events, e, rows[i].id);
    }
    ViewFrame(json, rows, events, events + [e]);
    ViewSnoc(json, rows, events + [e], row);
  }

  lemma {:induction false} UpdatedRow(rows: seq<Row>, partition: string, row: Row, content: string, now: string,
      metadata: string, system: string)
    requires OwnedRow(rows, partition, row.id) == Some(row)
    ensures OwnedRow(UpdateRows(rows, row.id, content, now, metadata, system), partition, row.id)
      == Some(row.(content := content, updatedAt := Some(now), metadata := metadata, system := system))
    decreases |rows|
  {
    var rows' := UpdateRows(rows, row.id, content, now, metadata, system);
    if !(rows[0].id == row.id && rows[0].userId == partition) {
      assert rows'[1..] == UpdateRows(rows[1..], row.id, content, now, metadata, system);
      UpdatedRow(rows[1..], partition, row, content, now, metadata, system);
    }
  }

  lemma UpdateKeeps(rows: seq<Row>, events: seq<Event>, row: Row, content: string, now: string, metadata: string,
      system: string, e: Event)
    requires OrderedRows(rows) && Anchored(rows, events) && row in rows && e.memoryId == row.id
    ensures
      var rows' := UpdateRows(rows, row.id, content, now, metadata, system);
      OrderedRows(rows') && Anchored(rows', events + [e])
  {
    var rows' := UpdateRows(rows, row.id, content, now, metadata, system);
    forall i | 0 <= i < |events + [e]|
      ensures HasRow(rows', (events + [e])[i].memoryId)
    {
      assert HasRow(rows, (events + [e])[i].memoryId);
      var k :| 0 <= k < |rows| && rows[k].id == (events + [e])[i].memoryId;
      assert rows'[k].id == rows[k].id;
    }
  }

  lemma {:induction false} DeletedEventsAre(events: seq<Event>, ids: set<string>, e: Event)
    ensures e in DeleteEvents(events, ids) <==> e in events && e.memoryId !in ids
    decreases |events|
  {
    if events != [] {
      DeletedEventsAre(events[1..], ids, e);
    }
  }

  lemma DeleteKeeps(rows: seq<Row>, events: seq<Event>, ids: set<string>, nextSeq: nat)
    requires OrderedRows(rows) && OrderedEvents(events, nextSeq) && Anchored(rows, events)
    ensures OrderedRows(DeleteRows(rows, ids)) && OrderedEvents(DeleteEvents(events, ids), nextSeq)
    ensures Anchored(DeleteRows(rows, ids), DeleteEvents(events, ids))
  {
    DeletedRowsOrdered(rows, ids);
    DeletedEventsOrdered(events, ids, nextSeq);
    var left, events' := DeleteRows(rows, ids), DeleteEvents(events, ids);
    forall i | 0 <= i < |events'|
      ensures HasRow(left, events'[i].memoryId)
    {
      DeletedEventsAre(events, ids, events'[i]);
      assert HasRow(rows, events'[i].memoryId);
      var k :| 0 <= k < |rows| && rows[k].id == events'[i].memoryId;
      DeletedRowsAre(rows, ids, rows[k]);
    }
  }

  /** `delete_all` collects the ids to delete, and deleting them leaves the survivors. */
  lemma DoomedGone(json: Json, rows: seq<Row>, events: seq<Event>, partition: string, scope: Fields)
    requires OrderedRows(rows)
    ensures
      var doomed := DoomedIds(json, rows, partition, scope);
      var ids := set id | id in doomed;
      var view := ViewOf(json, rows, events);
      && ViewOf(json, DeleteRows(rows, ids), DeleteEvents(events, ids)) == Survivors(view, partition, scope)
      && |doomed| == |view| - |Survivors(view, partition, scope)|
      && (doomed == [] ==> Survivors(view, partition, scope) == view)
  {
    var doomed := DoomedIds(json, rows, partition, scope);
    var ids := set id | id in doomed;
    forall i | 0 <= i < |rows|
      ensures rows[i].id in ids <==> DoomedRow(json, rows[i], partition, scope)
    {
      DoomedIdsAre(json, rows, partition, scope, rows[i]);
    }
    ViewSurvivors(json, rows, events, partition, scope, ids);
    ViewDeleted(json, rows, events, ids);
    DoomedCount(json, rows, events, partition, scope);
    if doomed == [] {
      DeleteAbsent(rows, ids);
    }
  }

  class SqliteBackend {
    const tables: Tables
    const json: Json
    var memories: seq<Row>
    var history: seq<Event>
    var nextSeq: nat  // AUTOINCREMENT: a sequence number is never used twice

    ghost predicate Valid()
      reads this
    {
      && Lawful(tables) && RoundTrips(json)
      && OrderedRows(memories) && OrderedEvents(history, nextSeq) && Anchored(memories, history)
    }

    function View(): Store
      reads this
    {
      ViewOf(json, memories, history)
    }

    constructor (t: Tables, j: Json)
      requires Lawful(t) && RoundTrips(j)
      ensures Valid() && View() == [] && tables == t
    {
      tables, json := t, j;
      memories, history, nextSeq := [], [], 1;
    }

    method InsertEvent(id: string, action: Action, now: string, before: Option<string>, after: Option<string>,
        author: Option<string>)
      requires OrderedEvents(history, nextSeq)
      modifies this`history, this`nextSeq
      ensures OrderedEvents(history, nextSeq)
      ensures history == old(history) + [Event(old(nextSeq), id, action, now, before, after, author)]
    {
      history := history + [Event(nextSeq, id, action, now, before, after, author)];
      nextSeq := nextSeq + 1;
    }

    method Add(partition: string, draft: NewMemory, id: string, now: string) returns (r: Result<seq<AddResult>>)
      requires Valid() && Fresh(View(), id)
      modifies this
      ensures Valid() && (View(), r) == Contract.Add(old(View()), partition, draft, id, now)
    {
      hide IsReservedKey;
      if draft.scope.Some? && HasNestedFilter(draft.scope.value) {
        return Err(ValueError);
      }
      if draft.metadata.Some? && HasReservedKey(draft.metadata.value.Keys) {
        return Err(MemoryApiError(400));
      }
      var system := OrElse(draft.system, NO_SYSTEM);
      var row := Row(NextRowid(memories), id, partition, draft.content,
                     json.dumpTexts(ScopeAsText(OrElse(draft.scope, map[]))),
                     json.dumpFields(OrElse(draft.metadata, map[])), json.dumpSystem(system), now, None);
      ghost var rows, events := memories, history;
      memories := memories + [row];
      InsertEvent(id, Created, now, None, Some(draft.content), system.author);
      FreshRows(json, rows, events, id);
      InsertKeeps(rows, events, row, history[|events|]);
      ViewInserted(json, rows, events, row, history[|events|]);
      r := Ok([AddResult(id, now, AddedEvent)]);
    }

    method Get(partition: string, id: string) returns (m: Option<Memory>)
      requires Valid()
      ensures m == Contract.Get(View(), partition, id)
    {
      ViewLookup(json, memories, history, partition, id);
      var row := OwnedRow(memories, partition, id);
      m := if row.None? then None else Some(ToMemory(json, row.value));
    }

    method Update(partition: string, id: string, change: Change, now: string) returns (r: Result<Memory>)
      requires Valid()
      modifies this
      ensures Valid() && (View(), r) == Contract.Update(old(View()), partition, id, change, now)
    {
      hide IsReservedKey, Replace;
      if change.patch.Some? && HasReservedKey(change.patch.value.sets.Keys + change.patch.value.removes) {
        return Err(MemoryApiError(400));
      }
      ViewLookup(json, memories, history, partition, id);
      var found := OwnedRow(memories, partition, id);
      if found.None? {
        return Err(MemoryApiError(404));
      }
      var row := found.value;
      var metadata := json.loadFields(row.metadata);
      if change.patch.Some? {
        metadata := metadata + change.patch.value.sets;
        metadata := metadata - change.patch.value.removes;
      }
      var content := if change.content.None? then row.content else change.content.value;
      var system := if change.system.None? then json.loadSystem(row.system) else change.system.value;
      ghost var rows, events := memories, history;
      memories := UpdateRows(memories, id, content, now, json.dumpFields(metadata), json.dumpSystem(system));
      InsertEvent(id, Updated, now, Some(row.content), Some(content), system.author);
      ViewReplace(json, rows, events, partition, row, change, now, content, json.dumpFields(metadata),
                  json.dumpSystem(system), history[|events|]);
      UpdateKeeps(rows, events, row, content, now, json.dumpFields(metadata), json.dumpSystem(system),
          history[|events|]);
      UpdatedRow(rows, partition, row, content, now, json.dumpFields(metadata), json.dumpSystem(system));
      var updated := OwnedRow(memories, partition, id);
      r := Ok(ToMemory(json, updated.value));
    }

    method Delete(partition: string, id: string) returns (r: Result<bool>)
      requires Valid()
      modifies this
      ensures Valid() && (View(), r) == Contract.Delete(old(View()), partition, id)
    {
      ViewLookup(json, memories, history, partition, id);
      var row := OwnedRow(memories, partition, id);
      if row.None? {
        return Err(MemoryApiError(404));
      }
      ViewRemove(json, memories, history, partition, row.value);
      ViewDeleted(json, memories, history, {id});
      DeleteIds({id});
      r := Ok(true);
    }

    /** The two DELETE statements of one transaction. */
    method DeleteIds(ids: set<string>)
      requires Valid()
      modifies this`memories, this`history
      ensures Valid() && memories == DeleteRows(old(memories), ids) && history == DeleteEvents(old(history), ids)
    {
      DeleteKeeps(memories, history, ids, nextSeq);
      memories := DeleteRows(memories, ids);
      history := DeleteEvents(history, ids);
    }

    method DeleteAll(partition: string, scope: Fields) returns (r: Result<nat>)
      requires Valid()
      modifies this
      ensures Valid() && (View(), r) == Contract.DeleteAll(old(View()), partition, scope)
    {
      if HasNestedFilter(scope) {
        return Err(ValueError);
      }
      var doomed := DoomedIds(json, memories, partition, scope);
      var ids := set id | id in doomed;
      DoomedGone(json, memories, history, partition, scope);
      if doomed == [] {
        return Ok(0);
      }
      DeleteIds(ids);
      r := Ok(|doomed|);
    }

    method ListMemories(partition: string, scope: Option<Fields>, limit: int,
        cursor: Option<string>) returns (r: Result<Page>)
      requires Valid()
      ensures r == ListPage(View(), partition, scope, limit, cursor)
    {
      ViewListing(json, memories, history, partition, scope);
      r := Paginate(ListRows(json, memories, partition, scope), cursor, limit);
    }

    /** The source reads these rows without `ORDER BY`; they are taken to come in rowid order. */
    method Search(partition: string, query: string, scope: Option<Fields>, limit: int) returns (r: Result<seq<Hit>>)
      requires Valid()
      ensures r == Contract.Search(tables, View(), partition, query, scope, limit)
    {
      if scope.Some? && HasNestedFilter(scope.value) {
        return Err(ValueError);
      }
      ViewListing(json, memories, history, partition, scope);
      var scored := CollectHits(tables, ListRows(json, memories, partition, scope), query);
      scored := Rank(scored);
      r := Ok(Slice(scored, 0, limit));
    }

    method History(partition: string, id: string) returns (r: Result<seq<HistoryEntry>>)
      requires Valid()
      ensures r == Contract.History(View(), partition, id)
    {
      ViewLookup(json, memories, history, partition, id);
      if OwnedRow(memories, partition, id).None? {
        return Err(MemoryApiError(404));
      }
      r := Ok(EventsOf(history, id));
    }
  }
}
