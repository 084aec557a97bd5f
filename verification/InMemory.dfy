/** The in-memory backend: two dicts, changed in place. */
module InMemory {
  import opened Results
  import opened Text
  import opened Values
  import opened CharTables
  import opened Ranking
  import opened Contract

  /** A value of `_store`. */
  datatype Entry = Entry(
    userId: string,
    content: string,
    scope: Texts,
    metadata: Fields,
    system: System,
    createdAt: string,
    updatedAt: Option<string>
  )

  type Logs = map<string, seq<HistoryEntry>>

  function ToMemory(id: string, e: Entry): Memory {
    Memory(id, e.content, e.scope, e.metadata, e.createdAt, e.updatedAt, e.userId, e.system)
  }

  ghost predicate Distinct(order: seq<string>) {
    forall i, j :: 0 <= i < j < |order| ==> order[i] != order[j]
  }

  ghost predicate Keyed(order: seq<string>, entries: map<string, Entry>, logs: Logs) {
    forall i :: 0 <= i < |order| ==> order[i] in entries && order[i] in logs
  }

  ghost function RecordOf(entries: map<string, Entry>, logs: Logs, id: string): Record
    requires id in entries && id in logs
  {
    Record(ToMemory(id, entries[id]), logs[id])
  }

  /** The dicts as one list, in the dict's insertion order. */
  ghost function ViewOf(order: seq<string>, entries: map<string, Entry>, logs: Logs): Store
    requires Keyed(order, entries, logs)
  {
    if order == [] then [] else [RecordOf(entries, logs, order[0])] + ViewOf(order[1..], entries, logs)
  }

  lemma {:induction false} ViewFresh(order: seq<string>, entries: map<string, Entry>, logs: Logs, id: string)
    requires Keyed(order, entries, logs) && Fresh(ViewOf(order, entries, logs), id)
    ensures id !in order
    decreases |order|
  {
    if order != [] {
      var view := ViewOf(order, entries, logs);
      assert view[0].memory.id == order[0];
      assert forall i :: 0 <= i < |view[1..]| ==> view[1..][i] == view[i + 1];
      ViewFresh(order[1..], entries, logs, id);
    }
  }

  /** The order that a dict keeps after some of its keys are deleted. */
  function Without(order: seq<string>, dead: set<string>): seq<string> {
    if order == [] then []
    else if order[0] in dead then Without(order[1..], dead)
    else [order[0]] + Without(order[1..], dead)
  }

  lemma {:induction false} WithoutKeeps(order: seq<string>, dead: set<string>, k: string)
    ensures k in Without(order, dead) <==> k in order && k !in dead
    decreases |order|
  {
    if order != [] {
      WithoutKeeps(order[1..], dead, k);
    }
  }

  lemma {:induction false} ViewSnoc(order: seq<string>, entries: map<string, Entry>, logs: Logs, id: string)
    requires Keyed(order, entries, logs) && id in entries && id in logs
    ensures Keyed(order + [id], entries, logs)
    ensures ViewOf(order + [id], entries, logs) == ViewOf(order, entries, logs) + [RecordOf(entries, logs, id)]
    decreases |order|
  {
    if order == [] {
      assert order + [id] == [id];
    } else {
      assert (order + [id])[1..] == order[1..] + [id];
      ViewSnoc(order[1..], entries, logs, id);
    }
  }

  lemma {:induction false} ViewFrame(order: seq<string>, entries: map<string, Entry>, logs: Logs,
      entries': map<string, Entry>, logs': Logs)
    requires Keyed(order, entries, logs) && Keyed(order, entries', logs')
    requires forall i :: 0 <= i < |order| ==> entries[order[i]] == entries'[order[i]] && logs[order[i]] == logs'[order[i]]
    ensures ViewOf(order, entries, logs) == ViewOf(order, entries', logs')
    decreases |order|
  {
    if order != [] {
      ViewFrame(order[1..], entries, logs, entries', logs');
    }
  }

  lemma ViewAdded(order: seq<string>, entries: map<string, Entry>, logs: Logs, id: string, entry: Entry,
      log: seq<HistoryEntry>)
    requires Keyed(order, entries, logs) && Distinct(order) && id !in order
    ensures Keyed(order + [id], entries[id := entry], logs[id := log]) && Distinct(order + [id])
    ensures ViewOf(order + [id], entries[id := entry], logs[id := log]) ==
      ViewOf(order, entries, logs) + [Record(ToMemory(id, entry), log)]
  {
    ViewFrame(order, entries, logs, entries[id := entry], logs[id := log]);
    ViewSnoc(order, entries[id := entry], logs[id := log], id);
  }

  lemma {:induction false} ViewLookup(order: seq<string>, entries: map<string, Entry>, logs: Logs, partition: string,
      id: string)
    requires Keyed(order, entries, logs)
    ensures Lookup(ViewOf(order, entries, logs), partition, id) ==
      if id in order && entries[id].userId == partition then Some(RecordOf(entries, logs, id)) else None
    decreases |order|
  {
    if order != [] {
      ViewLookup(order[1..], entries, logs, partition, id);
    }
  }

  lemma {:induction false} ViewReplace(order: seq<string>, entries: map<string, Entry>, logs: Logs,
    partition: string, id: string, change: Change, now: string, entry: Entry, log: seq<HistoryEntry>)
    requires Keyed(order, entries, logs) && Distinct(order) && id in order && entries[id].userId == partition
    requires Record(ToMemory(id, entry), log) == Changed(RecordOf(entries, logs, id), change, now)
    ensures Keyed(order, entries[id := entry], logs[id := log])
    ensures ViewOf(order, entries[id := entry], logs[id := log]) ==
      Replace(ViewOf(order, entries, logs), partition, id, change, now)
    decreases |order|
  {
    if order[0] == id {
      ViewFrame(order[1..], entries, logs, entries[id := entry], logs[id := log]);
    } else {
      ViewReplace(order[1..], entries, logs, partition, id, change, now, entry, log);
    }
  }

  lemma {:induction false} WithoutNone(order: seq<string>, dead: set<string>)
    requires forall k :: k in order ==> k !in dead
    ensures Without(order, dead) == order
    decreases |order|
  {
    if order != [] {
      WithoutNone(order[1..], dead);
    }
  }

  lemma {:induction false} WithoutDistinct(order: seq<string>, dead: set<string>)
    requires Distinct(order)
    ensures Distinct(Without(order, dead))
    decreases |order|
  {
    if order != [] {
      WithoutDistinct(order[1..], dead);
      WithoutKeeps(order[1..], dead, order[0]);
    }
  }

  lemma {:induction false} WithoutTwice(order: seq<string>, dead: set<string>, id: string)
    ensures Without(Without(order, dead), {id}) == Without(order, dead + {id})
    decreases |order|
  {
    if order != [] {
      WithoutTwice(order[1..], dead, id);
      if order[0] !in dead {
        assert Without(order, dead)[1..] == Without(order[1..], dead);
      }
    }
  }

  lemma WithoutKeyed(order: seq<string>, entries: map<string, Entry>, logs: Logs, dead: set<string>)
    requires Keyed(order, entries, logs)
    ensures Keyed(Without(order, dead), entries - dead, logs - dead)
  {
    forall i | 0 <= i < |Without(order, dead)|
      ensures Without(order, dead)[i] in entries - dead && Without(order, dead)[i] in logs - dead
    {
      WithoutKeeps(order, dead, Without(order, dead)[i]);
    }
  }

  lemma {:induction false} ViewRemove(order: seq<string>, entries: map<string, Entry>, logs: Logs, partition: string,
      id: string)
    requires Keyed(order, entries, logs) && Distinct(order) && id in order && entries[id].userId == partition
    ensures Keyed(Without(order, {id}), entries - {id}, logs - {id})
    ensures ViewOf(Without(order, {id}), entries - {id}, logs - {id}) ==
      Remove(ViewOf(order, entries, logs), partition, id)
    decreases |order|
  {
    WithoutKeyed(order, entries, logs, {id});
    if order[0] == id {
      WithoutNone(order[1..], {id});
      ViewFrame(order[1..], entries, logs, entries - {id}, logs - {id});
    } else {
      ViewRemove(order[1..], entries, logs, partition, id);
      assert Without(order, {id})[1..] == Without(order[1..], {id});
    }
  }

  predicate DoomedEntry(e: Entry, partition: string, scope: Fields) {
    e.userId == partition && ScopeMatches(e.scope, scope)
  }

  /** The keys whose entries are in the partition and the scope, in order. */
  function DoomedKeys(order: seq<string>, entries: map<string, Entry>, partition: string, scope: Fields): seq<string>
    requires forall i :: 0 <= i < |order| ==> order[i] in entries
  {
    if order == [] then []
    else if DoomedEntry(entries[order[0]], partition, scope) then [order[0]] + DoomedKeys(order[1..], entries, partition, scope)
    else DoomedKeys(order[1..], entries, partition, scope)
  }

  lemma {:induction false} DoomedAre(order: seq<string>, entries: map<string, Entry>, partition: string,
      scope: Fields, k: string)
    requires forall i :: 0 <= i < |order| ==> order[i] in entries
    ensures k in DoomedKeys(order, entries, partition, scope) <==>
      k in order && DoomedEntry(entries[k], partition, scope)
    decreases |order|
  {
    if order != [] {
      DoomedAre(order[1..], entries, partition, scope, k);
    }
  }

  lemma {:induction false} ViewSurvivors(order: seq<string>, entries: map<string, Entry>, logs: Logs,
    partition: string, scope: Fields, dead: set<string>)
    requires Keyed(order, entries, logs)
    requires forall k :: k in order ==> (k in dead <==> DoomedEntry(entries[k], partition, scope))
    ensures Keyed(Without(order, dead), entries - dead, logs - dead)
    ensures ViewOf(Without(order, dead), entries - dead, logs - dead) ==
      Survivors(ViewOf(order, entries, logs), partition, scope)
    decreases |order|
  {
    WithoutKeyed(order, entries, logs, dead);
    if order != [] {
      ViewSurvivors(order[1..], entries, logs, partition, scope, dead);
      if order[0] !in dead {
        assert Without(order, dead)[1..] == Without(order[1..], dead);
      }
    }
  }

  lemma {:induction false} DoomedCount(order: seq<string>, entries: map<string, Entry>, logs: Logs, partition: string,
      scope: Fields)
    requires Keyed(order, entries, logs)
    ensures
      var view := ViewOf(order, entries, logs);
      |DoomedKeys(order, entries, partition, scope)| == |view| - |Survivors(view, partition, scope)|
    decreases |order|
  {
    if order != [] {
      DoomedCount(order[1..], entries, logs, partition, scope);
    }
  }

  method CollectDoomed(order: seq<string>, entries: map<string, Entry>, partition: string,
      scope: Fields) returns (toDelete: seq<string>)
    requires forall i :: 0 <= i < |order| ==> order[i] in entries
    ensures toDelete == DoomedKeys(order, entries, partition, scope)
  {
    toDelete := [];
    for i := 0 to |order|
      invariant toDelete + DoomedKeys(order[i..], entries, partition, scope) ==
        DoomedKeys(order, entries, partition, scope)
    {
      assert order[i..][1..] == order[i + 1..];
      if entries[order[i]].userId == partition && ScopeMatches(entries[order[i]].scope, scope) {
        Regroup(toDelete, [order[i]], DoomedKeys(order[i + 1..], entries, partition, scope));
        toDelete := toDelete + [order[i]];
      }
    }
  }

  /** The loop of a list or a search over `_store.items()`. */
  method CollectInScope(order: seq<string>, entries: map<string, Entry>, ghost logs: Logs, partition: string,
      scope: Option<Fields>)
    returns (memories: seq<Memory>)
    requires Keyed(order, entries, logs)
    ensures memories == Listing(ViewOf(order, entries, logs), partition, scope)
  {
    memories := [];
    for i := 0 to |order|
      invariant memories + Listing(ViewOf(order[i..], entries, logs), partition, scope) ==
        Listing(ViewOf(order, entries, logs), partition, scope)
    {
      assert order[i..][1..] == order[i + 1..];
      var entry := entries[order[i]];
      if entry.userId == partition && (scope.None? || ScopeMatches(entry.scope, scope.value)) {
        Regroup(memories, [ToMemory(order[i], entry)],
            Listing(ViewOf(order[i + 1..], entries, logs), partition, scope));
        memories := memories + [ToMemory(order[i], entry)];
      }
    }
  }

  ghost function Firsts(ids: seq<string>, n: nat): set<string>
    requires n <= |ids|
  {
    set k | k in ids[..n]
  }

  /** The dicts after the first `n` of `ids` were deleted. */
  ghost predicate Dropped(order0: seq<string>, store0: map<string, Entry>, logs0: Logs,
    order: seq<string>, store: map<string, Entry>, logs: Logs, ids: seq<string>, n: nat)
    requires n <= |ids|
  {
    var dead := Firsts(ids, n);
    order == Without(order0, dead) && store == store0 - dead && logs == logs0 - dead
  }

  lemma NothingDropped(order: seq<string>, store: map<string, Entry>, logs: Logs, ids: seq<string>)
    ensures Dropped(order, store, logs, order, store, logs, ids, 0)
  {
    WithoutNone(order, {});
    assert Firsts(ids, 0) == {};
  }

  lemma OneMoreDropped(order0: seq<string>, store0: map<string, Entry>, logs0: Logs,
    order: seq<string>, store: map<string, Entry>, logs: Logs, ids: seq<string>, n: nat)
    requires n < |ids| && Dropped(order0, store0, logs0, order, store, logs, ids, n)
    ensures Dropped(order0, store0, logs0, Without(order, {ids[n]}), store - {ids[n]}, logs - {ids[n]}, ids, n + 1)
  {
    assert ids[..n + 1] == ids[..n] + [ids[n]];
    assert Firsts(ids, n + 1) == Firsts(ids, n) + {ids[n]};
    WithoutTwice(order0, Firsts(ids, n), ids[n]);
  }

  /** The fields of an entry that an update sets, one by one. */
  method Rewritten(stored: Entry, change: Change, now: string) returns (entry: Entry)
    ensures entry.userId == stored.userId
    ensures forall id :: ToMemory(id, entry) == ChangedMemory(ToMemory(id, stored), change, now)
  {
    entry := stored;
    if change.content.Some? {
      entry := entry.(content := change.content.value);
    }
    entry := entry.(updatedAt := Some(now));
    if change.patch.Some? {
      entry := entry.(metadata := entry.metadata + change.patch.value.sets);
      entry := entry.(metadata := entry.metadata - change.patch.value.removes);
    }
    if change.system.Some? {
      entry := entry.(system := change.system.value);
    }
  }

  class InMemoryBackend {
    const tables: Tables
    var store: map<string, Entry>
    var order: seq<string>  // the insertion order that the dict `store` keeps
    var history: Logs

    ghost predicate Valid()
      reads this
    {
      && Lawful(tables) && Distinct(order) && Keyed(order, store, history)
      && (forall id :: id in store <==> id in order)
      && (forall id :: id in history <==> id in order)
    }

    ghost function View(): Store
      reads this
      requires Valid()
    {
      ViewOf(order, store, history)
    }

    constructor (t: Tables)
      requires Lawful(t)
      ensures Valid() && View() == [] && tables == t
    {
      tables := t;
      store, order, history := map[], [], map[];
    }

    method Add(partition: string, draft: NewMemory, id: string, now: string) returns (r: Result<seq<AddResult>>)
      requires Valid() && id !in store
      modifies this
      ensures Valid() && (View(), r) == Contract.Add(old(View()), partition, draft, id, now)
      ensures store.Keys <= old(store.Keys) + {id}
    {
      hide ViewOf, IsReservedKey, HasNestedFilter;
      if draft.scope.Some? && HasNestedFilter(draft.scope.value) {
        return Err(ValueError);
      }
      if draft.metadata.Some? && HasReservedKey(draft.metadata.value.Keys) {
        return Err(MemoryApiError(400));
      }
      var system := OrElse(draft.system, NO_SYSTEM);
      var entry := Entry(partition, draft.content, ScopeAsText(OrElse(draft.scope, map[])),
                         OrElse(draft.metadata, map[]), system, now, None);
      var log := [HistoryEntry(Created, now, None, Some(draft.content), system.author)];
      ViewAdded(order, store, history, id, entry, log);
      store := store[id := entry];
      order := order + [id];
      history := history[id := log];
      assert Record(ToMemory(id, entry), log) == NewRecord(partition, draft, id, now);
      r := Ok([AddResult(id, now, AddedEvent)]);
    }

    lemma FreshKey(id: string)
      requires Valid() && Fresh(View(), id)
      ensures id !in store
    {
      ViewFresh(order, store, history, id);
    }

    method Get(partition: string, id: string) returns (m: Option<Memory>)
      requires Valid()
      ensures m == Contract.Get(View(), partition, id)
    {
      ViewLookup(order, store, history, partition, id);
      if id !in store || store[id].userId != partition {
        return None;
      }
      return Some(ToMemory(id, store[id]));
    }

    method Update(partition: string, id: string, change: Change, now: string) returns (r: Result<Memory>)
      requires Valid()
      modifies this
      ensures Valid() && (View(), r) == Contract.Update(old(View()), partition, id, change, now)
      ensures store.Keys == old(store.Keys)
    {
      hide IsReservedKey, Replace, ViewOf, Lookup, ChangedMemory;
      if change.patch.Some? && HasReservedKey(change.patch.value.sets.Keys + change.patch.value.removes) {
        return Err(MemoryApiError(400));
      }
      ViewLookup(order, store, history, partition, id);
      if id !in store || store[id].userId != partition {
        return Err(MemoryApiError(404));
      }
      var oldContent := store[id].content;
      var entry := Rewritten(store[id], change, now);
      var log := history[id] + [HistoryEntry(Updated, now, Some(oldContent), Some(entry.content), entry.system.author)];
      ViewReplace(order, store, history, partition, id, change, now, entry, log);
      store := store[id := entry];
      history := history[id := log];
      r := Ok(ToMemory(id, entry));
    }

    method Delete(partition: string, id: string) returns (r: Result<bool>)
      requires Valid()
      modifies this
      ensures Valid() && (View(), r) == Contract.Delete(old(View()), partition, id)
      ensures store.Keys <= old(store.Keys)
    {
      ViewLookup(order, store, history, partition, id);
      if id !in store || store[id].userId != partition {
        return Err(MemoryApiError(404));
      }
      ViewRemove(order, store, history, partition, id);
      DropKey(id);
      r := Ok(true);
    }

    /** `del self._store[id]` and `self._history.pop(id, None)`. */
    method DropKey(id: string)
      requires Valid()
      modifies this
      ensures Valid() && order == Without(old(order), {id})
      ensures store == old(store) - {id} && history == old(history) - {id}
    {
      WithoutDistinct(order, {id});
      WithoutKeyed(order, store, history, {id});
      forall k {
        WithoutKeeps(order, {id}, k);
      }
      order := Without(order, {id});
      store := store - {id};
      history := history - {id};
    }

    method DeleteAll(partition: string, scope: Fields) returns (r: Result<nat>)
      requires Valid()
      modifies this
      ensures Valid() && (View(), r) == Contract.DeleteAll(old(View()), partition, scope)
      ensures store.Keys <= old(store.Keys)
    {
      if HasNestedFilter(scope) {
        return Err(ValueError);
      }
      var toDelete := CollectDoomed(order, store, partition, scope);
      ghost var order0, store0, history0 := order, store, history;
      ghost var dead := Firsts(toDelete, |toDelete|);
      assert toDelete[..|toDelete|] == toDelete;
      DropKeys(toDelete);
      forall k | k in order0
        ensures k in dead <==> DoomedEntry(store0[k], partition, scope)
      {
        DoomedAre(order0, store0, partition, scope, k);
      }
      ViewSurvivors(order0, store0, history0, partition, scope, dead);
      DoomedCount(order0, store0, history0, partition, scope);
      r := Ok(|toDelete|);
    }

    /** The deletion loop of `delete_all`. */
    method DropKeys(ids: seq<string>)
      requires Valid()
      modifies this
      ensures Valid()
      ensures Dropped(old(order), old(store), old(history), order, store, history, ids, |ids|)
    {
      NothingDropped(order, store, history, ids);
      for i := 0 to |ids|
        invariant Valid() && Dropped(old(order), old(store), old(history), order, store, history, ids, i)
      {
        OneMoreDropped(old(order), old(store), old(history), order, store, history, ids, i);
        DropKey(ids[i]);
      }
    }

    method ListMemories(partition: string, scope: Option<Fields>, limit: int,
        cursor: Option<string>) returns (r: Result<Page>)
      requires Valid()
      ensures r == ListPage(View(), partition, scope, limit, cursor)
    {
      var memories := CollectInScope(order, store, history, partition, scope);
      r := Paginate(memories, cursor, limit);
    }

    method Search(partition: string, query: string, scope: Option<Fields>, limit: int) returns (r: Result<seq<Hit>>)
      requires Valid()
      ensures r == Contract.Search(tables, View(), partition, query, scope, limit)
    {
      if scope.Some? && HasNestedFilter(scope.value) {
        return Err(ValueError);
      }
      var memories := CollectInScope(order, store, history, partition, scope);
      var results := CollectHits(tables, memories, query);
      results := Rank(results);
      r := Ok(Slice(results, 0, limit));
    }

    method History(partition: string, id: string) returns (r: Result<seq<HistoryEntry>>)
      requires Valid()
      ensures r == Contract.History(View(), partition, id)
    {
      ViewLookup(order, store, history, partition, id);
      if id !in store || store[id].userId != partition {
        return Err(MemoryApiError(404));
      }
      return Ok(history[id]);
    }
  }
}
