/** The two backends answer alike: any mix of calls, made on both, gives the same replies. */
module Bisimulation {
  import opened Results
  import opened Values
  import opened CharTables
  import opened Contract
  import InMemory
  import Sqlite

  datatype Op =
    | AddOp(partition: string, draft: NewMemory)
    | GetOp(partition: string, id: string)
    | UpdateOp(partition: string, id: string, change: Change)
    | DeleteOp(partition: string, id: string)
    | DeleteAllOp(partition: string, wanted: Fields)
    | ListOp(partition: string, scope: Option<Fields>, limit: int, cursor: Option<string>)
    | SearchOp(partition: string, query: string, scope: Option<Fields>, limit: int)
    | HistoryOp(partition: string, id: string)

  datatype Reply =
    | Added(added: Result<seq<AddResult>>)
    | Got(got: Option<Memory>)
    | Changed(changed: Result<Memory>)
    | Deleted(deleted: Result<bool>)
    | Cleared(cleared: Result<nat>)
    | Listed(page: Result<Page>)
    | Found(found: Result<seq<Hit>>)
    | Told(told: Result<seq<HistoryEntry>>)

  /** A call, with the id a create would draw and the time it reads. */
  datatype Call = Call(op: Op, id: string, now: string)

  function Step(t: Tables, store: Store, c: Call): (Store, Reply)
    requires LawfulClasses(t)
  {
    match c.op
    case AddOp(p, draft) => var (s, r) := Add(store, p, draft, c.id, c.now); (s, Added(r))
    case GetOp(p, id) => (store, Got(Get(store, p, id)))
    case UpdateOp(p, id, change) => var (s, r) := Update(store, p, id, change, c.now); (s, Changed(r))
    case DeleteOp(p, id) => var (s, r) := Delete(store, p, id); (s, Deleted(r))
    case DeleteAllOp(p, scope) => var (s, r) := DeleteAll(store, p, scope); (s, Cleared(r))
    case ListOp(p, scope, limit, cursor) => (store, Listed(ListPage(store, p, scope, limit, cursor)))
    case SearchOp(p, query, scope, limit) => (store, Found(Search(t, store, p, query, scope, limit)))
    case HistoryOp(p, id) => (store, Told(History(store, p, id)))
  }

  function Replies(t: Tables, store: Store, calls: seq<Call>): seq<Reply>
    requires LawfulClasses(t)
    decreases |calls|
  {
    if calls == [] then []
    else
      var (store', reply) := Step(t, store, calls[0]);
      [reply] + Replies(t, store', calls[1..])
  }

  // ---------- Ids ----------

  ghost predicate FreshIds(store: Store, calls: seq<Call>) {
    && (forall k :: 0 <= k < |calls| ==> Fresh(store, calls[k].id))
    && (forall j, k :: 0 <= j < k < |calls| ==> calls[j].id != calls[k].id)
  }

  lemma StepFresh(t: Tables, store: Store, c: Call, other: string)
    requires LawfulClasses(t) && Fresh(store, other) && other != c.id
    ensures Fresh(Step(t, store, c).0, other)
  {
    hide Search, Contract.History, ListPage;
    match c.op
    case UpdateOp(p, id, change) => ReplaceFresh(store, p, id, change, c.now, other);
    case DeleteOp(p, id) => RemoveFresh(store, p, id, other);
    case DeleteAllOp(p, scope) => SurvivorsFresh(store, p, scope, other);
    case _ =>
  }

  lemma FreshAfterStep(t: Tables, store: Store, calls: seq<Call>)
    requires LawfulClasses(t) && calls != [] && FreshIds(store, calls)
    ensures FreshIds(Step(t, store, calls[0]).0, calls[1..])
  {
    forall k | 0 <= k < |calls[1..]|
      ensures Fresh(Step(t, store, calls[0]).0, calls[1..][k].id)
    {
      StepFresh(t, store, calls[0], calls[k + 1].id);
    }
  }

  // ---------- One call on each backend ----------

  predicate Reads(op: Op) {
    op.GetOp? || op.ListOp? || op.SearchOp? || op.HistoryOp?
  }

  method ReadInMemory(b: InMemory.InMemoryBackend, c: Call) returns (reply: Reply)
    requires b.Valid() && Reads(c.op)
    ensures (b.View(), reply) == Step(b.tables, b.View(), c)
  {
    hide Contract.Get, ListPage, Search, History;
    match c.op
    case GetOp(p, id) =>
      var m := b.Get(p, id);
      reply := Got(m);
    case ListOp(p, scope, limit, cursor) =>
      var r := b.ListMemories(p, scope, limit, cursor);
      reply := Listed(r);
    case SearchOp(p, query, scope, limit) =>
      var r := b.Search(p, query, scope, limit);
      reply := Found(r);
    case HistoryOp(p, id) =>
      var r := b.History(p, id);
      reply := Told(r);
  }

  method WriteInMemory(b: InMemory.InMemoryBackend, c: Call) returns (reply: Reply)
    requires b.Valid() && Fresh(b.View(), c.id) && !Reads(c.op)
    modifies b
    ensures b.Valid() && (b.View(), reply) == Step(b.tables, old(b.View()), c)
  {
    hide Contract.Add, Update, Delete, DeleteAll;
    match c.op
    case AddOp(p, draft) =>
      b.FreshKey(c.id);
      var r := b.Add(p, draft, c.id, c.now);
      reply := Added(r);
    case UpdateOp(p, id, change) =>
      var r := b.Update(p, id, change, c.now);
      reply := Changed(r);
    case DeleteOp(p, id) =>
      var r := b.Delete(p, id);
      reply := Deleted(r);
    case DeleteAllOp(p, scope) =>
      var r := b.DeleteAll(p, scope);
      reply := Cleared(r);
  }

  method CallInMemory(b: InMemory.InMemoryBackend, c: Call) returns (reply: Reply)
    requires b.Valid() && Fresh(b.View(), c.id)
    modifies b
    ensures b.Valid() && (b.View(), reply) == Step(b.tables, old(b.View()), c)
  {
    if Reads(c.op) {
      reply := ReadInMemory(b, c);
    } else {
      reply := WriteInMemory(b, c);
    }
  }

  method ReadSqlite(b: Sqlite.SqliteBackend, c: Call) returns (reply: Reply)
    requires b.Valid() && Reads(c.op)
    ensures (b.View(), reply) == Step(b.tables, b.View(), c)
  {
    hide Contract.Get, ListPage, Search, History;
    match c.op
    case GetOp(p, id) =>
      var m := b.Get(p, id);
      reply := Got(m);
    case ListOp(p, scope, limit, cursor) =>
      var r := b.ListMemories(p, scope, limit, cursor);
      reply := Listed(r);
    case SearchOp(p, query, scope, limit) =>
      var r := b.Search(p, query, scope, limit);
      reply := Found(r);
    case HistoryOp(p, id) =>
      var r := b.History(p, id);
      reply := Told(r);
  }

  method WriteSqlite(b: Sqlite.SqliteBackend, c: Call) returns (reply: Reply)
    requires b.Valid() && Fresh(b.View(), c.id) && !Reads(c.op)
    modifies b
    ensures b.Valid() && (b.View(), reply) == Step(b.tables, old(b.View()), c)
  {
    hide Contract.Add, Update, Delete, DeleteAll;
    match c.op
    case AddOp(p, draft) =>
      var r := b.Add(p, draft, c.id, c.now);
      reply := Added(r);
    case UpdateOp(p, id, change) =>
      var r := b.Update(p, id, change, c.now);
      reply := Changed(r);
    case DeleteOp(p, id) =>
      var r := b.Delete(p, id);
      reply := Deleted(r);
    case DeleteAllOp(p, scope) =>
      var r := b.DeleteAll(p, scope);
      reply := Cleared(r);
  }

  method CallSqlite(b: Sqlite.SqliteBackend, c: Call) returns (reply: Reply)
    requires b.Valid() && Fresh(b.View(), c.id)
    modifies b
    ensures b.Valid() && (b.View(), reply) == Step(b.tables, old(b.View()), c)
  {
    if Reads(c.op) {
      reply := ReadSqlite(b, c);
    } else {
      reply := WriteSqlite(b, c);
    }
  }

  /** From tables and dicts that show the same list, every sequence of calls gets the same replies from
      both backends, and leaves them showing the same list. */
  method RunOnBoth(mem: InMemory.InMemoryBackend, sql: Sqlite.SqliteBackend, calls: seq<Call>)
    returns (fromMem: seq<Reply>, fromSql: seq<Reply>)
    requires mem.Valid() && sql.Valid() && mem.tables == sql.tables && mem.View() == sql.View()
    requires FreshIds(mem.View(), calls)
    modifies mem, sql
    decreases |calls|
    ensures mem.Valid() && sql.Valid() && mem.View() == sql.View()
    ensures fromMem == fromSql == Replies(mem.tables, old(mem.View()), calls)
  {
    hide Step;
    fromMem, fromSql := [], [];
    if calls != [] {
      FreshAfterStep(mem.tables, mem.View(), calls);
      var a := CallInMemory(mem, calls[0]);
      var b := CallSqlite(sql, calls[0]);
      fromMem, fromSql := RunOnBoth(mem, sql, calls[1..]);
      fromMem, fromSql := [a] + fromMem, [b] + fromSql;
    }
  }
}
